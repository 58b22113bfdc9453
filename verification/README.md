# Verification of the analysis core of YogaBench

YogaBench reads the REST API and the job logs of a backup server and says what limits the
backups. This project models its four engines in Dafny and proves what they promise.

**The session protocol** (`session`, `protocol*`). `Get` runs in any number of goroutines over
one session. The state machine takes one step for each block under a mutex, channel operation
or HTTP exchange; clock and server answer as they like. The class `Session` has the methods of
the source, proved against the same block functions. Every theorem is about every reachable
state. A second fetch within the time to live happens exactly in one window, and a run shows it.

**The environment assessment** (`spans`, `hours`, `activity`, `assessment`, `findings`,
`summary`, `figures`, `records`). One pass over the runs fills the activity table and the
bottleneck tables. Its shares are percentages only because spans stay inside their hour, shares
never exceed the bytes of a run and id lists hold no duplicates; each of these is proved, and
`Records.Assess` puts them together. `figures` says what every figure means in terms of the runs, without the tables.

**Advice and verdicts** (`slots`, `sharing*`, `fairness`, `recommend`, `advice`, `balance`,
`reliability*`, `actions`, `ranking`, `pipeline`, `closing`, `verdict*`, `capacity`). The greedy
proxy assignment is fair and its final loads have a closed form; `advice` says what the finished
advice reads, in whole numbers. Failures are grouped without loss. The closing stages of the
environment verdict amount to one ranking of everything they add, with a failing job on top. A
measured cause stays whatever rules follow, and `verdict_advice` has the exact condition of every
action. Codes such as `act.feedNet` are constructors here, `ActFeedNet`.

**Logs and topology** (`deeplog*`, `flow*`). The report on a job log is about its newest run
exactly when that run has closed, or no older one has, and the older text leaves no trace. The
links of the architecture graph do not depend on the order of the jobs.

`sorting` characterises a stable sort by order and by the order within each key, and proves
that these leave one output; `sums` and `quotients` hold the arithmetic.

## Where the code does less than its comments say

Each has a lemma with the failing case and one with the exact condition.

- The balance row looks at every proxy, so it can send jobs to the one the comment at
  `internal/topology/recommend.go:158` keeps load away from
  (`Balance.AdviceMovesJobsToABottleneck`, exactly when: `Balance.BalancePointsAtABottleneckIff`).
- While the newest run has not written its load line, or never does, the load and time of the
  run before it are reported together with the newest run's own transport and options, against
  `internal/deeplog/parse.go:152` (`DeepLog.AnOpenRunIsMixedWithTheOneBefore`). An option or
  primary stage an older run logs after its load line is reported for a closed newest run that
  does not state its own (`DeepLog.AnOldOptionLeaks`). Exactly when the report is about the
  newest run alone: `DeepLog.NewestRunIsIsolatedIff`.
- A job name with a bar can share a failure row with another job (`Reliability.ABarMergesGroups`,
  exactly when: `Reliability.KeysCollideIff`).
- The severity follows the last measured stage while the cause follows the first, so a
  repository at its ceiling may be reported as a warning (`VerdictTheorems.AMaxedTargetMayOnlyWarn`,
  exactly when: `VerdictTheorems.SeverityFitsTheCauseIff`).
- A repository whose id is that of a plain server that mounts nothing is filtered out although
  a link points at it, and a link may start at a proxy no listing has: only repositories get a
  stand-in (`FlowTheorems.ARepositoryMayHideBehindAServer`, `FlowTheorems.AnUnlistedProxyIsNotShown`,
  exactly when: `FlowTheorems.LinkedRepositoryIsShownIff`, `FlowTheorems.LinkedProxyIsShownIff`).
- A path may be fetched twice with success within the time to live, against the once per
  minute of `internal/vbr/client.go:133` (`GetProgress.TwoFetchesWithinTheTtl`; a GET is made
  beside a fresh copy exactly when: `GetTheorems.FetchesDespiteAFreshCopyIff`). A failed fetch
  stores nothing and is repeated by the next request.
- A proxy host that cannot carry a single slot counts as having no data, not as a deficit
  (`Pipeline.AHostBelowOneSlotIsNotJudged`, exactly when: `Pipeline.DeficitIff`).

## Model

| member | source | states |
|---|---|---|
| `GetTheorems.RenewalHappensOnce` | internal/vbr/client.go:106-127 | in every reachable state of any interleaving, if the server issues no token twice, no two successful grants replace the same access token or spend the same refresh token |
| `GetTheorems.GrantsFormAChain` | internal/vbr/client.go:109-124 | each successful grant spent the refresh token issued together with the access token it replaced; outside a renewal the session holds the last pair issued |
| `GetTheorems.GrantsSendThePartner` | internal/vbr/client.go:109-119 | the refresh token about to be sent, whether the grant then succeeds or fails, was issued together with the access token that failed, and no pair was issued after them |
| `GetTheorems.RequestBounds` | internal/vbr/client.go:182-204 | a request makes at most two GETs and two renewals, and none of either when a cached copy or another request answered it |
| `GetTheorems.RetryUsesANewerToken` | internal/vbr/client.go:194-199 | the retry after a 401 never carries the token that failed, and the token it carries was issued later |
| `GetTheorems.AtMostOneLeader` | internal/vbr/session.go:65-86 | two requests that lead the same path at once are the same request |
| `GetTheorems.OneFetchInFlight` | internal/vbr/client.go:159-167 | at most one request at a time has a GET of a cached path on the wire |
| `GetTheorems.PublishedOnce` | internal/vbr/session.go:79-86 | every call is written exactly once and closed exactly once by its leader: it is closed if and only if its leader is done, holds what the leader wrote, and is never closed before it is written |
| `GetTheorems.OnlyItsLeaderWrites` | internal/vbr/client.go:161-178 | a call changes only in a step of the request that leads it |
| `GetTheorems.WaiterGetsItsLeadersOutcome` | internal/vbr/client.go:162-166 | a request that waited returns the outcome its leader published, which is what the leader itself returned, for the same path |
| `GetTheorems.NoStrandedWaiter` | internal/vbr/session.go:79-86 | the call a request waits on is closed, or a live leader still has to close it |
| `GetTheorems.CacheAgreesWithServer` | internal/vbr/client.go:167-170 | with no leader about to store, a cached path holds exactly the body of the latest reply for it with status 200 and valid JSON |
| `GetTheorems.PendingCopyIsTheLatestFetch` | internal/vbr/client.go:167-170 | a body about to be stored is that of the latest fetch of the path, in the hands of one request only |
| `GetTheorems.CopiesNeverGoBack` | internal/vbr/session.go:117-124 | no step drops a copy or replaces it by an older one |
| `GetTheorems.UncachedPathsNeverTouchTheCache` | internal/vbr/client.go:152-154 | paths outside the cached prefixes never enter the cache or the table of calls |
| `GetTheorems.EveryOutcomeIsExplained` | internal/vbr/client.go:148-218 | what a request returns is a copy at most 60 seconds old and no GET, what the replies to its own GETs say, a copy at most 30 minutes old after its own fetch failed, or the error of that fetch when no such copy was there; a success of its own is the body of a reply with status 200 and valid JSON; a waiter returns one of these of its leader |
| `GetTheorems.ErrorsComeFromFailedFetches` | internal/vbr/client.go:167-218 | an error comes out if and only if the fetch of this request failed and no copy stood in; it is what its last reply says (the status, 502 for a 200 that is not JSON, 504 without an answer), or 401 where a renewal came to nothing; a waiter has the outcome of its leader |
| `GetTheorems.RepliesMeanWhatTheySay` | internal/vbr/client.go:191-218 | in every reachable state a GET succeeds with a body if and only if the reply is that body with status 200 and valid JSON; a first 401 leads to a renewal and no outcome; every other reply is exactly its error |
| `GetTheorems.RenewsInTheLastMinute` | internal/vbr/client.go:182-189 | before its first GET a request renews a token with less than a minute to live, and no other |
| `GetTheorems.RenewsOnlyTheTokenInUse` | internal/vbr/client.go:107-118 | inside the mutex a grant follows only for the token still in use and only with a refresh token; another token counts as renewed |
| `GetTheorems.RetriesWithAnotherToken` | internal/vbr/client.go:194-207 | after a 401 and a renewal there is a retry if and only if the token is another one; otherwise the error is 401 |
| `GetTheorems.CachedPaths` | internal/vbr/client.go:133-145 | paths of jobs and infrastructure are cached, those of sessions are not |
| `ReplyHistory.RepliesStep` | internal/vbr/client.go:180-218 | every step keeps the account of the raw replies each request got and of what its outcome owes to them |
| `GetTheorems.FetchesDespiteAFreshCopyIff` | internal/vbr/client.go:155-167 | one fetch per time to live, exactly: a GET of a cached path is on the wire while a fresh copy exists if and only if a copy still fresh was stored between the cache check of this request and its taking the lead |
| `GetTheorems.TheCheckSawNoFreshCopy` | internal/vbr/client.go:155-158 | a fresh copy of the path was stored after the cache check of every request that got past it |
| `GetTheorems.AFreshCopyEndsTheRequest` | internal/vbr/client.go:155-158 | a check ends the request without a GET if and only if it finds a fresh copy |
| `GetTheorems.InvStep` | internal/vbr/client.go:106-218 | the joint invariant survives every step of every request, of the clock and of the server |
| `GetProgress.EveryRequestIsBounded` | internal/vbr/client.go:148-218 | in any run a request takes at most 23 steps, whatever the others and the server do |
| `GetProgress.SomeoneMovesUntilAllAreDone` | internal/vbr/client.go:148-218 | in a reachable state some request can move if and only if one is unfinished: no deadlock |
| `GetProgress.TwoFetchesWithinTheTtl` | internal/vbr/client.go:155-161 | such a window can be hit: a reachable run in which one path is fetched twice at one instant |
| `SingleFlight.FlightStep` | internal/vbr/session.go:65-86 | every step keeps the single-flight invariant that ties calls, table and program counters together |
| `SingleFlight.MutexStep` | internal/vbr/client.go:107-108 | exactly the request inside the renewal section holds its mutex |
| `TokenChain.ChainStep` | internal/vbr/client.go:109-124 | every step keeps the chain of token pairs |
| `CacheHistory.AgreeStep` | internal/vbr/client.go:167-170 | every step keeps cache and fetch history in agreement |
| `CacheHistory.SourceStep` | internal/vbr/client.go:155-178 | every step keeps the account of where each outcome comes from |
| `CacheWindow.WindowStep` | internal/vbr/session.go:65-77 | every step keeps the account of which copies a request can have missed |
| `Session.Session.JoinOrLead` | internal/vbr/session.go:65-77 | a caller joins the listed call of a path or lists a new open one; other paths are untouched |
| `Session.Session.LeadDone` | internal/vbr/session.go:80-86 | publishes the outcome, unlists the path and closes the channel |
| `Session.Session.CacheGet` | internal/vbr/session.go:95-103 | a copy if and only if one at most 60 seconds old is stored, and that one |
| `Session.Session.CacheGetStale` | internal/vbr/session.go:107-115 | a copy if and only if one at most 30 minutes old is stored, and that one |
| `Session.Session.CachePut` | internal/vbr/session.go:117-124 | what is put is found exactly while it is no older than asked for, and lookups of other paths stay as they were |
| `Session.Session.SetTokens` | internal/vbr/session.go:149-158 | replaces the pair and its expiry, unknown when the server states no lifetime |
| `Session.RenewedInItsLastMinute` | internal/vbr/session.go:149-166 | a pair stored with a lifetime counts as stale exactly in its last minute; one stored without is never stale |
| `Session.Session.CurrentToken` | internal/vbr/session.go:162-166 | the token, stale exactly when less than a minute is left of the lifetime stated when it was stored |
| `Spans.UnionSeconds` | internal/analysis/assessment.go:549-569 | for every list of well-formed spans in any order, the result is the number of seconds at least one of them covers |
| `Spans.CoveredIff` | internal/analysis/assessment.go:544-569 | a second counts exactly when some span contains it |
| `Spans.CoverIsMonotone` | internal/analysis/assessment.go:549-569 | more spans never cover less |
| `Spans.SameSpansSameCover` | internal/analysis/assessment.go:549-569 | lists of the same spans, in any order and with any repetition, cover the same seconds |
| `Spans.CoverBounds` | internal/analysis/assessment.go:549-569 | the cover is at most the sum of the durations and at least the longest one |
| `Hours.PiecesPartitionTheRun` | internal/analysis/assessment.go:527-541 | a run is cut into consecutive non-empty pieces, each inside its own clock hour, with lengths that sum to the run |
| `Hours.SpreadConservesBytes` | internal/analysis/assessment.go:537-537 | the shares of the hours sum to at most the bytes of the run and lose less than one byte per hour touched |
| `Hours.HourTable.Spread` | internal/analysis/assessment.go:519-542 | the hour loop fills the table as the pieces say and terminates |
| `Hours.SpreadKeeps` | internal/analysis/assessment.go:519-542 | spreading keeps every busy span inside its hour and adds at most the bytes of the run |
| `Hours.BusyTimeFitsTheHour` | internal/analysis/assessment.go:284-287 | the busy seconds of a bucket never exceed 3600 |
| `Activity.HourHolds` | internal/analysis/assessment.go:212-220 | for every list of runs and every full clock hour, the bytes of the bucket are those of the runs, each run giving bytes * overlap / duration rounded down, or all of them where it starts without a usable end, and its jobs are those of the runs that touch the hour |
| `Activity.HourIsBusy` | internal/analysis/assessment.go:519-542 | a second of an hour is covered by the bucket if and only if some timed run with bytes spans it |
| `Activity.BusyTimeIsTheRuns` | internal/analysis/assessment.go:280-287 | the busy seconds of a bucket are the seconds of that hour inside such runs |
| `Assessment.TallyRuns` | internal/analysis/assessment.go:177-255 | the single pass over the runs fills hour table, start counts and bottleneck tables as their separate definitions say |
| `Assessment.BucketsHoldAtMostTheTotal` | internal/analysis/assessment.go:212-220 | over any list of runs the buckets together hold at most the total bytes |
| `Assessment.StartsHoldAtMostTheTotal` | internal/analysis/assessment.go:203-211 | the bytes booked on start hours sum to at most the total |
| `Assessment.OnlyMoversBind` | internal/analysis/assessment.go:222-254 | all bottleneck totals are those of the runs that moved data alone |
| `Assessment.NoOpImmunity` | internal/analysis/assessment.go:222-254 | two lists with the same data-moving runs have the same stage bytes, data runs and per-resource tables |
| `Assessment.InsertingANoOp` | internal/analysis/assessment.go:222-225 | one no-op run inserted anywhere changes none of them |
| `Assessment.StageBytesAreConserved` | internal/analysis/assessment.go:234-236 | the bytes per stage sum to the bytes of the data-moving runs with a known stage |
| `Assessment.StageBytesAreTheStagesRuns` | internal/analysis/assessment.go:234-236 | each stage holds exactly the bytes of its own runs |
| `Assessment.ResourceBytesAreBounded` | internal/analysis/assessment.go:246-254 | with duplicate-free id lists a resource holds the bytes of the runs it owns, at most the total |
| `Assessment.DuplicatesBreakTheBound` | internal/analysis/assessment.go:246-248 | without duplicate-free lists the bound fails |
| `Summaries.BuildAssessment` | internal/analysis/assessment.go:151-401 | for all runs with sizes that are not negative and clean id lists, the summary satisfies the definitions from the tables: counts, peak, busiest and staggering hour, top stage and hotspots are maxima with their own jobs, runs and shares |
| `Figures.SummaryIsTrue` | internal/analysis/assessment.go:264-397 | the same told from the runs, without the tables: the peak is a clock hour that holds 16 MiB or more and no hour holds more, busy for the seconds inside its runs; the busiest hour of the day carries most, with the jobs active in it; most jobs start in the staggering hour; the top stage and the five hotspots carry the bytes of the runs they own, with runs, stage and busy seconds, and none left out carries more; every share is the nearest percent |
| `Figures.PctIsPercent` | internal/analysis/assessment.go:596-601 | a share is the nearest percent: 2 * total * pct <= 200 * part + total < 2 * total * (pct + 1) |
| `Figures.OwnersAreOwners` | internal/analysis/assessment.go:237-247 | a run bound by Target is charged to its repositories, one bound by Proxy or Network to its proxies, any other to nothing |
| `Summaries.NoOpsLeaveTheBottleneck` | internal/analysis/assessment.go:222-255 | for two lists with the same data-moving runs, the top stage, its share and runs, the data runs and the hotspot rows that may be reported are the same |
| `Summaries.BottleneckFiguresAreDetermined` | internal/analysis/assessment.go:327-336 | under any iteration order the share and bytes of the top stage, the data runs and the number of hotspots come out the same |
| `Summaries.CountIdle` | internal/analysis/assessment.go:256-261 | the jobs whose runs together stay below 16 MiB are counted |
| `Summaries.RunsAreCounted` | internal/analysis/assessment.go:177-235 | runs, jobs, data runs and the runs of each stage are counts over the list |
| `Findings.TopStage` | internal/analysis/assessment.go:328-332 | under any iteration order the top stage holds the most bytes |
| `Findings.Hotspots` | internal/analysis/assessment.go:375-397 | the five largest rows or all, largest first, no resource twice, and none left out is larger |
| `Findings.Largest` | internal/analysis/assessment.go:302-307 | under any iteration order the key found carries a largest positive value, or none is positive |
| `Records.CleanedIsDuplicateFree` | internal/analysis/helpers.go:230-241 | cleaning keeps exactly the usable ids, each once |
| `Records.CleanedKeepsTheOrder` | internal/analysis/helpers.go:230-241 | they keep the order in which they are first seen |
| `Records.CleaningTwiceIsCleaningOnce` | internal/analysis/helpers.go:230-241 | cleaning is idempotent |
| `Records.CleanIDs` | internal/analysis/helpers.go:230-241 | the loop with its seen set keeps each usable id where it is first seen |
| `Records.BuildRecord` | internal/analysis/analysis.go:327-367 | the record of a run sums its task bytes and lists its usable repositories and proxies once each |
| `Records.TransfersAddUp` | internal/analysis/analysis.go:327-367 | the bytes of a run add up over any split of its tasks, and a single task counts as its own size |
| `Records.Assess` | internal/analysis/analysis.go:240-252 | from any runs with task sizes that are not negative, every figure of the summary is true to the runs; nothing about the id lists is assumed |
| `AdviceInNumbers.GivenJobsAreFair` | internal/topology/recommend.go:160-204 | for every automatic row and every listed proxy that is no hotspot, (jobs of the target - 1) * slots of the other <= jobs of the other * slots of the target, where jobs are pins plus automatic rows and unknown slots count as 1 |
| `Sharing.SharingIsEven` | internal/topology/recommend.go:160-204 | the assignment is even, tie-break included, from its definition alone: before its last job a proxy came before every other as that one is now |
| `Fairness.AdviceConservesJobs` | internal/topology/recommend.go:149-204 | total jobs are the pins on listed proxies plus the automatic jobs, hotspots carry their pins alone, and no row names one |
| `Sharing.EveryRowNamesTheLightest` | internal/topology/recommend.go:173-204 | every row is made for one job and names the first least loaded proxy of that moment |
| `Sharing.RowsAreForThoseInNeed` | internal/topology/recommend.go:173-204 | the automatic jobs and those pinned to a hotspot have a row each, in job order, unless every proxy is a hotspot |
| `Sharing.PickIsSoonest` | internal/topology/recommend.go:160-171 | the scan finds the first of the proxies with the fewest jobs per slot |
| `Levels.LiftedIff` | internal/topology/recommend.go:173-204 | the automatic jobs lift every proxy past a mark if and only if there are as many as the sum of what each lacks, max(0, quota - pins) |
| `Levels.QuotaIsWhereItEnds` | internal/topology/recommend.go:87-92 | the quota of a proxy, a quotient of slots and mark rounded up or past, is where it stops coming first |
| `Levels.RisesAboveIff` | internal/topology/recommend.go:173-204 | a proxy rises above k jobs if and only if there are more automatic jobs than all lack to be past it at k |
| `Levels.LoadsAreLevels` | internal/topology/recommend.go:149-204 | the final loads follow from pins, slots and the number of automatic jobs in closed form |
| `Balance.BalancePointsAtABottleneckIff` | internal/topology/recommend.go:206-230 | the balance row points at a hotspot if and only if a hotspot is listed beside another proxy, the automatic jobs lift all others past its pins, and the heaviest proxy then carries two jobs or more and half a job per slot above it: a condition on proxies, jobs and hotspots |
| `Balance.AdviceMovesJobsToABottleneck` | internal/topology/recommend.go:206-230 | an input for which it does: two jobs pinned to one proxy beside an idle hotspot |
| `Balance.LightestIsHotIff` | internal/topology/recommend.go:208-217 | the lightest of all proxies is a hotspot exactly when all others are past the lightest hotspot |
| `Recommend.Pool.Best` | internal/topology/recommend.go:160-171 | the first of the proxies with the fewest jobs per slot, hotspots skipped, or none when all are hotspots |
| `Recommend.Pool.Assign` | internal/topology/recommend.go:173-204 | the assignment loop in place ends with the loads and rows of the assignment as a function |
| `Recommend.Pool.CountPins` | internal/topology/recommend.go:149-155 | jobs that do not choose automatically count on each listed proxy they pin |
| `Recommend.NoneIsHeavier` | internal/topology/recommend.go:208-217 | the balance scan finds a heaviest proxy |
| `Recommend.PinnedJobsAreInTheAdvice` | internal/topology/recommend.go:232-252 | every pinned job is named by some row, unless there is no advice at all |
| `Recommend.AdviceIsEmptyIff` | internal/topology/recommend.go:232-234 | there is none exactly when no job is steered and no balance row is made |
| `Recommend.OkRowsAreForTheOthers` | internal/topology/recommend.go:239-251 | rows without a change are for pinned jobs that have no other row |
| `Recommend.Advise` | internal/topology/recommend.go:95-299 | the whole advice, loops over objects updated in place, is the advice as a function of proxies, jobs and hotspots |
| `AdviceInNumbers.AdviceIsAsItReads` | internal/topology/recommend.go:95-260 | what it says, told from the listings with loads compared as products: the jobs that choose automatically or are pinned to a listed hotspot (35 percent or more) have one row each in job order, none if every proxy is a hotspot; each names the proxy that carried least per slot at that moment, the first listed among equals; the balance row names the lightest proxy if and only if 2 * (jobs_hi * slots_lo - jobs_lo * slots_hi) >= slots_hi * slots_lo for the heaviest, which has two jobs or more; pinned jobs without a row need no change; hotspot rows come first, then automatic, balance and no change |
| `AdviceInNumbers.SteeringIsDetermined` | internal/topology/recommend.go:173-204 | these conditions leave exactly one list of steering rows |
| `DeepLog.SegmentHoldsTheLastLoad` | internal/deeplog/parse.go:84-90 | the segment is the end of the log, holds its last load line and no other, or is the whole log |
| `DeepLog.SegmentIsIdempotent` | internal/deeplog/parse.go:84-90 | cutting twice is cutting once |
| `DeepLog.PrefixIsIrrelevant` | internal/deeplog/parse.go:84-90 | once a log holds two loads nothing in front of it changes the segment |
| `DeepLog.OlderRunsLeaveTheirTail` | internal/deeplog/parse.go:84-90 | what an older text leaves in the segment: nothing before two loads, what follows its last load before one closed run, its own segment before a run without a load |
| `DeepLog.RunLabelMatchesData` | internal/deeplog/parse.go:101-114 | the time label and the reported load come from the same load line |
| `DeepLogReport.ReportIsAsItReads` | internal/deeplog/parse.go:101-114 | the whole report by positions in the log: it starts behind the last load but one; load, primary stage and options are the last ones stated from there on, absent exactly when none is; modes are those that occur; a duration is the last one of a thread that does not begin with VBR. or contain Pipeline; the time is the first stamp between the last line end before the last load and that load, absent exactly when there is none |
| `DeepLog.LabelIgnoresFullLines` | internal/deeplog/parse.go:101-114 | behind complete lines the label is that of the newer text, or of the older one as long as the newer has no load |
| `DeepLog.NewestRunDecides` | internal/deeplog/parse.go:154-197 | field by field, what is reported for any text after any older text, closed runs or not |
| `DeepLog.NewestRunIsIsolatedIff` | internal/deeplog/parse.go:154-197 | for every newest text behind complete lines: the older text changes nothing if and only if the newest holds two loads, or what follows the last older load leaves no trace and a newest text without a load has no older load before it |
| `DeepLog.RunsThatCloseLastLeaveNoTrace` | internal/deeplog/parse.go:79-90 | runs that write everything before their load line change nothing if and only if the newest run has written its load too, or they hold none |
| `DeepLog.AnOldOptionLeaks` | internal/deeplog/parse.go:185-196 | an option written after the older load line is reported when the newest run does not state it |
| `DeepLog.AnOpenRunIsMixedWithTheOneBefore` | internal/deeplog/parse.go:152-196 | the log of a run that has not closed: the load of the run before it is reported with the transport and options of the open one |
| `DeepLog.ParseJob` | internal/deeplog/parse.go:154-197 | the parser reports exactly that |
| `Reliability.FailuresOf` | internal/analysis/reliability.go:52-101 | the grouping loop yields the rows of all groups in a stable order by Now, then by count descending |
| `ReliabilityReport.FailuresReadAs` | internal/analysis/reliability.go:52-101 | told by positions: one row for each newest failed session of its name and message, with the job, name, message and time of that session, the number of such sessions, and Now if and only if one of them is the newest of its job; rows that are Now come first, then larger counts, then the more recent |
| `ReliabilityReport.FailedRunsAre` | internal/analysis/reliability.go:65-71 | the failed runs are the positions of failed sessions, counted |
| `Reliability.EveryFailureIsCountedOnce` | internal/analysis/reliability.go:67-87 | the counts of the rows sum to the number of failed sessions |
| `Reliability.RowsAreTheGroups` | internal/analysis/reliability.go:76-90 | every failed session has a row with the count of its group, Now exactly when the newest session of some job failed into it |
| `Reliability.EveryRowIsOneGroup` | internal/analysis/reliability.go:76-90 | conversely every row is one group and no two rows are the same |
| `Reliability.SomethingFailsNowIff` | internal/analysis/reliability.go:88-90 | some row is Now if and only if the newest session of some job failed |
| `Reliability.KeysTellGroupsApart` | internal/analysis/reliability.go:78-78 | job names without a bar keep groups apart |
| `Reliability.KeysCollideIff` | internal/analysis/reliability.go:78-78 | exactly when two different failures share a row |
| `Reliability.ABarMergesGroups` | internal/analysis/reliability.go:78-78 | failures of two jobs that end up in one row |
| `Actions.RankingIsAStablePermutation` | internal/analysis/assessment.go:571-577 | ranking permutes, orders by impact, keeps the order within an impact and numbers from 1 |
| `Actions.Rank` | internal/analysis/assessment.go:571-577 | the list sorted stably by impact and numbered from 1 |
| `Ranking.RankedOnceIsEnough` | internal/analysis/assessment.go:571-577 | ranking a part before the whole changes nothing |
| `Ranking.StagesRankOnce` | internal/analysis/analysis.go:269-273 | the three closing stages together rank all their findings once: reliability in front, sizing and closing findings behind |
| `Pipeline.Conclude` | internal/analysis/analysis.go:252-274 | if the newest run of some job failed, the first action is act.envFailing with rank 1, severity is critical and the headline is env.failing and names a failure no other current one outnumbers; otherwise severity and headline stay; the repository named fills first, in whole days |
| `Closing.AddsWhatIsDue` | internal/analysis/analysis.go:269-273 | how often the closing stages add each action, as a function of failures, hosts that are down, sizing rows and figures alone: failing now high, past failures medium, one finding per host (high with repositories, medium without), one for the first proxy short of slots (high when as many must go as remain), waiting, stale machines and space by their thresholds; nothing else is added and nothing dropped |
| `Pipeline.StagesKeepTheList` | internal/analysis/analysis.go:269-273 | the stages lose no action and keep the order within each impact |
| `Pipeline.FailingNowIsOnTop` | internal/analysis/reliability.go:160-195 | whatever a list holds and whatever is added behind it, a failing job comes first |
| `Pipeline.NowRowsAreFirst` | internal/analysis/reliability.go:150-163 | the first row failing now is a most frequent one |
| `Pipeline.EnvVerdict.AddReliability` | internal/analysis/reliability.go:138-196 | its exact effect on actions, severity, headline and success share |
| `Pipeline.EnvVerdict.AddSizing` | internal/analysis/sizing.go:93-124 | appends one finding exactly when a row is in deficit |
| `Pipeline.ClosingFindings` | internal/analysis/capacityplan.go:43-85 | which of the waiting, stale and space findings are made and which are urgent, each as a condition on the figures |
| `Pipeline.EnvVerdict.AddCapacity` | internal/analysis/capacityplan.go:14-39 | with i the repository named, days * rate_i <= free_i * 2^30 < (days + 1) * rate_i, and no other that gets a quarter GiB a day and has room lasts fewer whole days, the first listed among equals; nothing changes when there is none |
| `Pipeline.FirstToFillIsFirstFull` | internal/analysis/capacityplan.go:20-38 | the repository the scan finds is that one, and it finds none exactly when none qualifies |
| `Pipeline.DeficitIff` | internal/analysis/sizing.go:35-46 | deficit, oversized and no data in terms of one core and 2 GB per slot; a host below one slot is not judged |
| `Pipeline.AHostBelowOneSlotIsNotJudged` | internal/analysis/sizing.go:35-46 | such a host, whatever its slots, has no data |
| `Pipeline.SuccessIsAShare` | internal/analysis/reliability.go:143-147 | the success share is the nearest percent of completed among completed and failed runs, and stays as it was without any |
| `VerdictTheorems.FirstMeasurementIsTheCause` | internal/analysis/verdict.go:117-150 | the cause of a finished verdict is the one measured on the busiest stage that was measured, whatever the other rules say |
| `VerdictTheorems.NoMeasurementNoMeasuredCause` | internal/analysis/verdict.go:283-347 | without a measurement of a visited stage no measured cause is named |
| `VerdictTheorems.CauseIsOpenIff` | internal/analysis/verdict.go:137-142 | when the cause stays unknown, as a condition on the inputs |
| `VerdictTheorems.SeverityFitsTheCauseIff` | internal/analysis/verdict.go:283-347 | the severity fits the cause unless both ceilings were measured and the disk is idle while the link is not, or full while the link is idle, or, visited first, neither while the link says otherwise than the load; idle below 59.5%, full from 79.5%; without a measurement it always fits |
| `VerdictTheorems.SeverityIsTheLastGrade` | internal/analysis/verdict.go:283-347 | the severity is that of the last graded measurement, or of the load |
| `VerdictTheorems.AMaxedTargetMayOnlyWarn` | internal/analysis/verdict.go:295-342 | a job for which they differ: its repository is at its ceiling, its link is idle, and it is reported as a warning |
| `VerdictTheorems.GainsAreCredible` | internal/analysis/verdict.go:122-124 | every action with a gain has high impact and carries exactly the verdict's gain, in 1..75 |
| `VerdictTheorems.ActionsAreRanked` | internal/analysis/verdict.go:503-510 | actions come out as a stable permutation by impact, ranked 1..n |
| `VerdictTheorems.BuildVerdict` | internal/analysis/verdict.go:167-238 | the whole engine over every rule path: actions, cause, severity, headline, stages and gain |
| `VerdictAdvice.AdviceIff` | internal/analysis/verdict.go:167-513 | for every action with its stage, impact and gain: it is in the finished verdict if and only if stages visited, rates and logs warrant it, each code by its own condition (feedNet: Network visited, link measured, 1600 * write < 119 * link; netUpgrade otherwise; fasterTarget from 159/200 of the disk on, noBuyStorage below 119/200; fio and iperf where visited and not measured; hotadd for nbd; and so on for all twenty) |
| `VerdictReading.StagesReadAs` | internal/analysis/verdict.go:565-574 | the stages visited are those that bind with work, each once, the busiest first and equals in the order listed, or the dominant stage when there are none |
| `VerdictReading.ActionsAreWellOrdered` | internal/analysis/verdict.go:503-510 | numbered from 1, high before hygiene before medium before verify before info; of equal impact, what is about a busier stage comes first |
| `VerdictReading.CauseReadsAs` | internal/analysis/verdict.go:137-150 | the cause of every verdict: that of the first stage measured, by the rates; else what the last stage says that settles it (the source by its logs, a host whose slots can be raised), else, or behind a source without logs, the guess of the next stage |
| `VerdictReading.SeverityReadsAs` | internal/analysis/verdict.go:167-238 | the severity of every verdict: that of the last measured stage that tells one, by the rates; else critical exactly when a stage that binds is 95 percent busy |
| `VerdictReading.HeadlineReadsAs` | internal/analysis/verdict.go:198-232 | the headline by the number of stages that saturate |
| `VerdictTheorems.BindingStages` | internal/analysis/verdict.go:565-574 | the stages that saturate, busiest first, stable |
| `VerdictTheorems.OneStage` | internal/analysis/verdict.go:241-275 | what one stage makes of an open diagnosis, measured or not |
| `VerdictRules.MeasuredTargetThresholds` | internal/analysis/verdict.go:283-317 | starved below 59.5% of the measured ceiling, at the limit from 79.5% on |
| `VerdictRules.GainOf` | internal/analysis/verdict.go:188-196 | the gain is absent or in 1..75 |
| `VerdictRules.TimesAddUp` | internal/analysis/verdict.go:445-455 | the machine time adds up over any split of the list, and a single machine counts as its own |
| `Verdict.VBuild.StageRules` | internal/analysis/verdict.go:241-275 | the rules of one stage: actions, causes and severity |
| `Verdict.VBuild.CauseFinal` | internal/analysis/verdict.go:147-150 | fixes the cause unless one is fixed already |
| `Verdict.VBuild.SetCause` | internal/analysis/verdict.go:137-142 | leaves a fixed cause alone |
| `VerdictRules.SlotAdviceIff` | internal/analysis/verdict.go:391-426 | which slot advice is given, at most one, by how many tasks the host carries at a core and 2 GB each |
| `Verdict.VBuild.SkewRules` | internal/analysis/verdict.go:442-469 | one machine dominates, or the machines ran one after another |
| `VerdictRules.CrossAdviceIff` | internal/analysis/verdict.go:472-500 | space advice if and only if a repository has less than 10% free, a wider window exactly for low confidence, the logs exactly where they are missing |
| `VerdictRules.SpaceAdviceIff` | internal/analysis/verdict.go:474-489 | urgent exactly below 5% |
| `Capacity.BindingStages` | internal/analysis/capacity.go:415-445 | each stage has the utilisation stated, and binds if and only if that is 85 or more and within 6 of the busiest; so some stage binds if and only if the busiest reaches 85 |
| `Capacity.DominantStageBinds` | internal/analysis/capacity.go:415-430 | without utilisations only the dominant stage binds, at level 0 |
| `Capacity.BuildStages` | internal/analysis/capacity.go:415-445 | which stages bind, with and without percentages |
| `Capacity.ProjectionIsSound` | internal/analysis/capacity.go:451-475 | when a projection exists, exactly; it is shorter and gains 1 to 99 percent |
| `Capacity.ProjectionComparesTheNextStage` | internal/analysis/capacity.go:455-474 | the first of the busiest stages that do not bind is set against the busiest of all: seconds_new * bind == seconds * next and gain * bind <= 100 * (bind - next) < (gain + 1) * bind |
| `Capacity.ProjectTime` | internal/analysis/capacity.go:451-475 | the two scans compute that projection |
| `FlowEdges.LinkTable` | internal/topology/flow.go:157-197 | a link is in the table exactly when some job names it or leaves it to the server, and is automatic exactly when no job names it |
| `FlowEdges.LinksIgnoreTheOrder` | internal/topology/flow.go:167-197 | the table is the same for every order of the jobs and proxies |
| `FlowTheorems.GraphIgnoresJobOrder` | internal/topology/flow.go:103-151 | two graphs of the same listings show the same nodes and edges however the jobs are ordered |
| `FlowTheorems.ShownIff` | internal/topology/flow.go:141-150 | which nodes are shown, as a condition on the listings and links |
| `FlowTheorems.MountServersAreShown` | internal/topology/flow.go:131-135 | the target of every mount edge survives the filter |
| `FlowTheorems.LinkedRepositoryIsShownIff` | internal/topology/flow.go:199-207 | the target of a link survives unless its id is that of a plain server that mounts nothing |
| `FlowTheorems.LinkedProxyIsShownIff` | internal/topology/flow.go:187-195 | the start of a link is shown exactly when a listing or a link end has it and it is no plain server |
| `FlowTheorems.ARepositoryMayHideBehindAServer` | internal/topology/flow.go:199-207 | a job that writes under the id of a plain server: its link points at no node |
| `FlowTheorems.AnUnlistedProxyIsNotShown` | internal/topology/flow.go:199-207 | only repositories get a stand-in: a link from an unlisted proxy starts at no node |
| `Flow.Build` | internal/topology/flow.go:103-151 | the graph of any listings; a listing that cannot be read is an error, except the jobs |
| `FlowReading.EdgesReadAs` | internal/topology/flow.go:157-207 | the edges are one mount edge for each repository with a mount server and one link for each pair some job names or leaves to the server, marked automatic if and only if no job names the proxy itself |
| `FlowReading.ALinkIsOneEdge` | internal/topology/flow.go:167-207 | no link is drawn twice |
| `FlowReading.NodesReadAs` | internal/topology/flow.go:103-151 | title, role and kind of every node shown: by the first server, else the first proxy, else the first repository entry that mentions the id, else a stand-in; a plain server that mounts becomes a mount server, and the kind is the last one stated |
| `Flow.Builder.Add` | internal/topology/flow.go:44-51 | adds a node unless its id is empty or known |
| `Flow.Builder.Promote` | internal/topology/flow.go:96-100 | changes the role of plain servers only |
| `Flow.Builder.SetKind` | internal/topology/flow.go:54-58 | sets the kind of a known node unless the kind is empty |
| `Flow.UnlistedInAnyOrder` | internal/topology/flow.go:199-207 | stand-in nodes do not depend on the order of the links |

## Left out

- Floating point: shares, percentages and projections are exact integers or reals, rounded as the source rounds; bit-for-bit agreement with its floats is not claimed, and `round1` is not modelled.
- Integer widths: sums of bytes are unbounded here, 64 bits wide in the source.
- Time: whole seconds, as the timestamp parser drops fractions; the session clock counts seconds too. Hours of the day are read off it without time zones.
- HTTP, TLS, OAuth encoding and JSON decoding: a GET or a grant is a failure or an answer the server is free to choose. A grant whose answer is lost counts as failed.
- The demo session, `hostRes`, `analyzed` and `autoRes` of the session: settled by reading.
- Order among equal maxima of a Go map (top stage, busiest hour, peak hour): any maximum may be chosen, and the contracts say no more.
- Texts, parameters and sources of actions, the signals of a verdict and the rounded target duration; `alt` is never called. The environment headline before the closing stages, its confidence, the machine freshness table, waiting share, reduction and the 24-hour histogram enter as given values or not at all.
- `resourceLoad` rows of the advice, and the gathering of VMware jobs from JSON.
- Where one run ends and the next begins in a log: older text is taken to end with a line, as runs write whole lines.
- Regular expressions: a log is a sequence of tokens (load, primary, mode, option, duration, stamp, text, line end), so an expression that matches across two of them is not captured; the joined transport text is the set of modes.
- A missing job result has no verdict; the model starts from one that is there.
- `parseTask`, `applyDurations` and the disk lists of the task logs: they cut the log with the same segment function.
- `RepoBytesPerDay` enters `AddCapacity` as a table; `DownHostsOf` and `BuildSizing` enter as lists of hosts and rows, with the row arithmetic modelled.
- Grouping by repository, proxy and job (`aggregate`, `groupStats`): sums a reading settles.
- The parallel fetch of the records: records are built independently of one another and taken in list order.
- A loads-per-slot quotient is exact here; the source compares rounded 64-bit floats, which can make near ties equal.
- The position of nodes in the graph: which nodes are shown is proved, not the order of insertion.
- Flow.Build: links become edges in some order, as the source iterates a map.
- Classification tables, benchmark execution, the web server and the older Python backend.
