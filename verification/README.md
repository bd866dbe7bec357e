# Verification of the operations console

The console polls the services, queues and datastores of a data pipeline every two seconds, decides what is
wrong, and shows it to the operators whose browsers are connected. This project models the parts of it that
keep state or can interleave, and proves what they promise over every run.

Times are `real` seconds, or `int` milliseconds where the browser keeps them so. Counters are `real`. Every
`await` is a step boundary at which other tasks may run. Objects the console updates in place are classes;
each of their methods is proved equal to a pure function, and the theorems are about those functions.

| files | what they cover |
|---|---|
| `Events`, `EventDetectors` | a reading taken apart into observations, the fold over them, and the class that computes it |
| `Readings` | what one whole reading announces, told from its own fields |
| `EventStories`, `EventTheorems`, `QueueWatch` | independence of pipelines, replay of the event log, one queue's story |
| `QueueMetrics`, `Stall` | counters to rates, and the stalled verdict told from the raw counter |
| `Delivery` | broadcast, backlog and live events, from the detector to the browser's log |
| `Stores`, `StoreTheorems` | the two bounded stores of the session gate |
| `Tickets`, `TicketTheorems` | single-use WebSocket tickets |
| `Gate`, `GateTheorems` | validations that overlap each other and logouts |
| `SocketLoop`, `Connections` | an open socket's re-check loop; the set of sockets and its gauge |
| `Progress`, `Burnup`, `BurnupSeries` | reset-aware counting, a run's totals, the burn-up line |
| `Window` | the browser's sliding window over a queue's readings |
| `Topology`, `TopologyTheorems` | the flow diagram's layout |
| `ConsoleSession`, `ConsoleTheorems`, `LedgerReads` | the page's session and its panels against answers that come late |
| `LooseScan` | the recursive query that stands in for a full-table maximum |

Some things one would expect of the code do not hold, and are stated as they are:

- Entering the expected wait from a problem announces an error with no kind, although a comment says the wait is
  not announced (`ExpectedWaitAnnounced` gives the exact condition, with an example).
- The run of computed zero acks also accumulates while the queue has no consumer; consumers are needed only at the
  reading that decides. The detector's own description of the verdict reads as if they were needed throughout:
  `StalledWithItsFirstConsumer` is a queue said to be stalled at the first reading that shows it a consumer, and
  `StalledBeyondDescription` says exactly when the verdict goes beyond the description.
- The connection gauge falls short by every failed socket that had already left when its broadcast finished
  (`GaugeShortfall`, `GaugeExact`).
- A bearer can be held both live and dead when two validations of it overlap (`AnswerKeepsApart`, `OverlapHoldsBoth`).
- An answer already under way may be cached after a logout, and honoured (`CachedAfterLogout`). A logout ends what
  the gate honours of a bearer, until it is validated anew, exactly when no validation of it waits for its reply
  (`LogoutHoldsExactly`; `LogoutHolds` and `OvertakenIsHonoured` are its halves). What every accept does rest on is
  an answer received after the logout (`AcceptsRestOnAnAnswer`).
- Losing a session to the cache's bound does not only make the gate ask again: of a bearer remembered as refused
  it makes the gate reject what stores without bounds would accept (`EvictionCanReject`). `EvictionAsksMoreUnless`
  says exactly when, and `AloneEvictionOnlyAsksMore` that it takes overlapping validations.
- A socket's re-checks can start more than 30 s apart although the schedule is called fixed, since the next one is set
  after the answer to the last: five seconds' wait for catalog-api makes 35 (`RechecksCanBeFurtherApart`).
  `RechecksAreClose` gives the bound that holds, `RechecksOnTime` exactly when 30 s does.
- A second sign-out asked for before the first is answered can end a session begun in between
  (`SecondSignOutEndsALaterSession`). `SignOutEndsWhatIsShown` says exactly when a sign-out ends its own session,
  and `AloneSignOutEndsItsOwn` what a caller must see to.
- The loose scan finds the newest load, whichever row it picks of each version, exactly when some version carries the
  newest time on all its rows (`AlwaysNewest`); with two rows of one version and different times it may choose the
  older (`OlderRowChosen`).

## Model

| member | source | states |
|---|---|---|
| EventDetectors.EventDetector.Observe | dashboard/events.py:107-126 | one reading extends the history, the verdicts and the memory by exactly what folding its observations gives, whatever came before; and of a reading whose names are distinct, every service, broker, dead-letter queue, work queue and datastore in it is remembered as its own field reads and announced, at the right level, exactly when that differs from what was remembered before, and nothing else is announced; every new event carries the reading's time, ids go on by one, and the ring is the last `capacity` events |
| Readings.ReadingIsTold | dashboard/events.py:107-239 | the same of the fold itself, over any memory: pipelines first in their order, then the platform, then the datastores; an outage forgets a pipeline's depths and queues; platform services turned off are forgotten, and rows that are not probes change nothing |
| Readings.ListsMeans | dashboard/events.py:241-257 | a queue is listed exactly when the first service named as its owner lists the queue's own type |
| EventDetectors.EventDetector.Record | dashboard/events.py:118-125 | the ring is always the last `capacity` events of the full history, and ids are 1, 2, 3 and so on |
| EventDetectors.EventDetector.Backlog | dashboard/events.py:103-105 | the backlog is the end of the history, ids consecutive, ending at the newest |
| EventDetectors.EventDetector.ServicesOf | dashboard/events.py:128-140 | the loop over services refines one observation a service, in order |
| EventDetectors.EventDetector.PlatformOf | dashboard/events.py:142-160 | the same for platform services: an inactive one is forgotten, a datastore row is left alone |
| EventDetectors.EventDetector.DatastoresOf | dashboard/events.py:162-172 | the same for datastores |
| EventDetectors.EventDetector.BrokerOf | dashboard/events.py:174-197 | the same for a pipeline's broker and dead-letter depths; an outage forgets its depths and no other pipeline's |
| EventDetectors.EventDetector.WorkQueuesOf | dashboard/events.py:199-239 | the same for its work queues; an outage forgets everything of its queues and no other pipeline's |
| EventDetectors.EventDetector.WorkQueue | dashboard/events.py:212-239 | one queue's four map entries, verdict and announcement, against the specification of its watch |
| EventDetectors.EventDetector.AwaitingMarkerFor | dashboard/events.py:241-258 | how long the queue has been an expected wait, from the start it remembers |
| EventTheorems.PipelineIndependence | dashboard/events.py:107-140 | a pipeline's memory, events in order, and verdicts in any run are those it would have alone |
| EventTheorems.SliceStep | dashboard/events.py:128-239 | an observation changes what is remembered of the service or queue it is about, and of no other |
| EventTheorems.FlagEventsAreTrue | dashboard/events.py:128-185 | a flag's event occurs exactly when the flag turns, says what was seen, and is news exactly when it rose |
| EventTheorems.FlagStep | dashboard/events.py:128-185 | the flag a reading speaks of takes the value it says; every other flag keeps its own |
| EventTheorems.EventsReplay | dashboard/events.py:99-197 | the first value seen and the events after it reconstruct the detector's flag, and those events strictly alternate, restarting after an inactive platform reading |
| EventTheorems.RemembersLastDepth | dashboard/events.py:174-197 | the depth compared with is the last one read since any outage of the pipeline |
| EventTheorems.DeadLetterEvents | dashboard/events.py:174-197 | growth and emptying are announced exactly when that depth is exceeded, or was not zero and now is |
| QueueWatch.DetectorWatches | dashboard/events.py:199-258 | what is remembered of a work queue depends on its own readings and its pipeline's outages alone |
| QueueWatch.QueueReading | dashboard/events.py:199-239 | so do its verdict and its events, in any run |
| QueueWatch.EventsAreChanges | dashboard/events.py:228-239 | a work-queue event occurs exactly when the kind remembered of its previous reading differs from this one's |
| QueueWatch.WaitIsBounded | dashboard/events.py:241-271 | in a maximal run of backlog without a consumer that the owner lists, the verdict is the expected wait exactly while the run is younger than the bound, and no-consumer from then on |
| QueueWatch.WhatIsDecided | dashboard/events.py:259-275 | at any reading in any run: an expected wait exactly while its run is younger than the bound, no consumer exactly with a backlog and none outside such a wait, stalled only with a backlog and consumers, nothing of an empty queue |
| QueueWatch.WaitStep | dashboard/events.py:228-239 | within such a run something is announced only where the bound is crossed |
| QueueWatch.CrossingAnnouncedOnce | dashboard/events.py:228-271 | over the whole run, on a clock that does not go back, the crossing is announced exactly once |
| QueueWatch.EndOfWaitIsQuiet | dashboard/events.py:228-231 | ending an expected wait is not announced as a recovery |
| QueueWatch.ExpectedWaitAnnounced | dashboard/events.py:229-237 | an expected wait is announced, as an error with no kind, exactly when the reading before was remembered as a problem |
| QueueWatch.ExpectedWaitAnnouncedExample | dashboard/events.py:229-237 | two readings of one queue for which it is |
| QueueMetrics.ParseQueueSamples | dashboard/queue_metrics.py:50-75 | one sample for each queue mentioned: counters summed over their series, gauges as last given, an absent series zero |
| QueueMetrics.OneLine | dashboard/queue_metrics.py:50-75 | a single line sets its one field, a gauge without its fraction |
| QueueMetrics.PiecesAddUp | dashboard/queue_metrics.py:50-75 | of two pieces of a scrape the counters add up and the later piece's gauges stand |
| QueueMetrics.ComputedZero | dashboard/queue_metrics.py:79-111 | a rate of zero is reported exactly when the counter reads as before, over time that passed since a poll that saw the queue |
| QueueMetrics.RateTracker.Update | dashboard/queue_metrics.py:91-105 | each of a queue's rates is known exactly when the previous scrape saw the queue, time passed and that counter did not drop; rate times elapsed time is then the counter's growth; this scrape alone is the next baseline |
| QueueMetrics.RatesArePerSecond | dashboard/queue_metrics.py:91-111 | the same of one queue's sample against any baselines |
| Stall.TrackerHoldsLastScrape | dashboard/dashboard.py:608-643 | over any polls, the baseline is the last scrape that did not fail |
| Stall.IdleIsStandingStill | dashboard/queue_metrics.py:91-111 | a computed zero with a backlog is a counter that stands still since that scrape |
| Stall.RunRemembered | dashboard/events.py:212-223 | the detector remembers exactly when the unbroken run of standing still began |
| Stall.StalledExactlyWhenStandingStill | dashboard/events.py:260-275 | a queue is stalled exactly when it has consumers now and its raw counter has stood still over an unbroken run at least 60 s old |
| Stall.BreaksRestart | dashboard/queue_metrics.py:79-111 | a failed scrape, a missed poll, a reset, a counter that moved, no elapsed time, an empty queue or a long silence always restarts that run |
| Stall.RunHasBeginning | dashboard/events.py:212-223 | a queue that stands still always has such a run |
| Stall.StalledOnSteadyClock | dashboard/events.py:260-275 | on a clock that does not go back, some unbroken run of that age is needed and is enough |
| Stall.StalledBeyondDescription | dashboard/events.py:199-223 | on such a clock every queue as described is stalled, and one is stalled without being as described exactly when it has consumers now and a run of that age, of which the part since its last reading without a consumer is younger |
| Stall.StalledWithItsFirstConsumer | dashboard/events.py:260-275 | five polls 20 s apart, consumers on the last alone, that are stalled |
| Stall.GlancesOfReading | dashboard/events.py:107-126 | within a whole reading only the queue's own pipeline shows it |
| Stall.RunDecides | dashboard/events.py:199-239 | over any run the verdicts of a work queue are those of its own readings, one at each, in order |
| Stall.StalledInTheConsole | dashboard/dashboard.py:608-643 | within whole readings of the console, whatever else they hold, a reading decides exactly one verdict for a work queue its poll reports, and that is stalled exactly when the raw counter says so |
| Delivery.EventLog.ApplyEventBacklog | dashboard/static/dashboard.js:2298-2302 | the backlog replaces the server's entries; the last id is their greatest |
| Delivery.EventLog.ApplyServerEvent | dashboard/static/dashboard.js:2305-2310 | a live event is shown unless its id is already covered |
| Delivery.SendKeeps | dashboard/dashboard.py:779-784 | a broadcast send that ends, delivered or not, keeps every socket in order |
| Delivery.BacklogKeeps | dashboard/dashboard.py:1049-1050 | so does a backlog sent after the socket registered |
| Delivery.LoopKeeps | dashboard/dashboard.py:466-474 | so do observing, starting, taking targets and finishing a broadcast |
| Delivery.MembershipKeeps | dashboard/dashboard.py:1029-1034 | so do joining, leaving, vanishing and a restart of the console |
| Delivery.BacklogFrame | dashboard/dashboard.py:1049-1050 | the backlog a socket is sent is the detector's ring, whose ids are the last 200 up to its newest |
| Delivery.ObservedIds | dashboard/events.py:107-126 | a reading's events are numbered on from all those before it |
| Delivery.EveryEventOnceInOrder | dashboard/dashboard.py:1029-1050 | for every interleaving, once its backlog is delivered a browser shows every event from the first one in that backlog to its own last one, each once and in order; when nothing is pending and the socket is registered, that is the detector's last one |
| Stores.SessionCache.Get | dashboard/session_auth.py:252-261 | a hit is what the ordered dictionary holds and has not lapsed; a lapsed entry is dropped, order otherwise kept |
| Stores.SessionCache.Put | dashboard/session_auth.py:263-272 | the entry goes last with the shorter of TTL and session life, nothing is kept past its life, and only the oldest beyond the bound go |
| Stores.SessionCache.Evict | dashboard/session_auth.py:274-276 | the key is gone and nothing else |
| Stores.InvalidAnswers.Holds | dashboard/session_auth.py:365-373 | as the cache's lookup |
| Stores.InvalidAnswers.Add | dashboard/session_auth.py:375-380 | as the cache's store |
| StoreTheorems.BoundedIsSuffix | dashboard/session_auth.py:263-276 | over any run the bounded store is the end of the unbounded one |
| StoreTheorems.UnboundedIsLastPut | dashboard/session_auth.py:252-276 | the unbounded store answers as a plain map of last puts with deadlines |
| StoreTheorems.HitsRefineLastPut | dashboard/session_auth.py:252-276 | so every hit of the bounded store is what that map would answer |
| StoreTheorems.SurvivorsAreNewest | dashboard/session_auth.py:263-272 | what the bound pushes out was put before everything that stays; looking does not refresh |
| StoreTheorems.HitBeforeExpiry | dashboard/session_auth.py:252-272 | a cached session is never served past its expiry when both clocks advance together |
| Tickets.TicketStore.Issue | dashboard/session_auth.py:312-320 | prune, add, drop the oldest beyond the bound; the lifetime is the shorter of the TTL and what the session has left, and zero if either is none |
| Tickets.TicketStore.Redeem | dashboard/session_auth.py:322-332 | the ticket is gone whatever the answer, which is its grant only while alive |
| Tickets.TicketStore.Purge | dashboard/session_auth.py:334-337 | exactly the bearer's tickets go |
| TicketTheorems.RedeemsExactlyOnce | dashboard/session_auth.py:312-342 | over any run a ticket redeems exactly when issued, not redeemed, purged or pushed out since, and not lapsed |
| TicketTheorems.RedeemsExactlyInTime | dashboard/session_auth.py:312-342 | over any run a redemption grants exactly when some issue of the ticket is no older than the TTL and than what its session then had left, and no redemption, purge of its bearer or overflow came since; it grants that session |
| TicketTheorems.RedeemsBeforeExpiry | dashboard/session_auth.py:312-342 | with the clocks in step, no ticket is granted past its session's expiry or its TTL, and within both one still standing is granted |
| TicketTheorems.NoSecondRedemption | dashboard/session_auth.py:322-332 | nothing redeems twice |
| TicketTheorems.StoreTracks | dashboard/session_auth.py:312-342 | the store holds of a ticket what its own history says |
| TicketTheorems.HeldInOrder | dashboard/session_auth.py:312-320 | tickets are held in the order they were issued |
| TicketTheorems.OverflowDropsOldest | dashboard/session_auth.py:318-319 | never more than the bound, and overflow drops those issued first |
| Gate.FetchedMeans | dashboard/session_auth.py:474-494 | what each reply means: a session only on a parsed 200 with time left, a refusal only on 401, 403 or a session already over |
| Gate.SessionGate.Begin | dashboard/session_auth.py:435-448 | a validation up to its request: what is looked up, in which order, and what that drops |
| Gate.SessionGate.End | dashboard/session_auth.py:449-456 | a validation from its answer on: what each kind of answer stores and evicts |
| Gate.SessionGate.Forget | dashboard/session_auth.py:458-464 | a logout drops the cached session and the bearer's tickets, not a remembered refusal |
| GateTheorems.AcceptsRestOnAnAnswer | dashboard/session_auth.py:435-464 | for every overlap of validations and logouts, an accept rests on a 200 answer for that session with no logout or refusal after it: this call's own, or, never for a fresh validation, one younger than TTL and session life, at most 30 s |
| GateTheorems.AcceptsBeforeExpiry | dashboard/session_auth.py:435-456 | in any such run, with the wall clock a fixed distance from the monotonic one at every answer, every accept is before its session's expiry, on whatever answer it rests |
| GateTheorems.RejectionsRestOnAnAnswer | dashboard/session_auth.py:435-456 | a rejection rests on this call's own answer, or on a refusal under ten seconds old; "unavailable" is never reused |
| GateTheorems.RefusalIsRemembered | dashboard/session_auth.py:441-456 | after any run, a refused bearer is rejected unasked for ten seconds |
| GateTheorems.UnboundExtends | dashboard/session_auth.py:252-276 | over any run of the gate its two stores are the ends of what they would be without their bounds |
| GateTheorems.EvictionAsksMoreUnless | dashboard/session_auth.py:441-448 | at any point of any run the gate answers as stores without bounds would, or asks catalog-api, exactly unless those hold a live session of the bearer that the bounded cache lost while a refusal of it is still remembered; then it rejects what they accept |
| GateTheorems.EvictionCanReject | dashboard/session_auth.py:263-272 | a run, with room for one session, in which it does |
| GateTheorems.AloneKeepsApart | dashboard/session_auth.py:435-464 | in every run whose validations do not overlap, with logouts anywhere, no bearer is held both live and dead |
| GateTheorems.AloneEvictionOnlyAsksMore | dashboard/session_auth.py:435-464 | in every such run losing entries to the bounds only ever makes the gate ask again |
| GateTheorems.AnswerKeepsApart | dashboard/session_auth.py:449-456 | shelves that are apart stay so at an answer exactly unless it grants a session with time left, where sessions are kept at all, to a bearer still remembered as refused |
| GateTheorems.OverlapHoldsBoth | dashboard/session_auth.py:441-456 | two overlapping validations that do |
| GateTheorems.LogoutHolds | dashboard/session_auth.py:435-464 | after any run, a logout of a bearer no validation of which is pending keeps it out of the cache, and the gate from honouring it unasked, through anything else that happens until a new validation of it |
| GateTheorems.OvertakenIsHonoured | dashboard/session_auth.py:449-464 | after any run, a pending validation that a logout overtakes and that then settles as a grant is honoured from the cache for as long as the grant may be reused, where sessions are kept at all |
| GateTheorems.LogoutHoldsExactly | dashboard/session_auth.py:435-464 | so, where sessions are kept, the bearer cannot be honoured again without a new validation exactly when none was pending at the logout |
| GateTheorems.CachedAfterLogout | dashboard/session_auth.py:449-464 | a logout between a validation's request and its reply, after which the bearer is honoured |
| SocketLoop.Attend | dashboard/dashboard.py:1052-1080 | every turn re-checks exactly when the schedule or the session has run out, waits exactly while both have time left, and ends as the answer or the frame says; its schedule and session move exactly at a re-check that honours the session; it closes with 4401 exactly when its last re-check was rejected as invalid, with 4503 exactly when as unavailable, and with nothing else |
| SocketLoop.ClosesAsRejected | dashboard/dashboard.py:991-993 | the same of every trace of the loop |
| SocketLoop.TurnsAsItShould | dashboard/dashboard.py:1052-1080 | in every turn, exactly when it re-checks and exactly what makes it discard the socket |
| SocketLoop.ReceivesOnlyInTime | dashboard/dashboard.py:1066-1070 | whatever the client sends, no receive starts with the deadline reached or the session expired, and each lasts up to the nearer of the two |
| SocketLoop.ScheduleIsVouched | dashboard/dashboard.py:1058-1065 | before every turn the loop holds what it began with until a re-check honours the session, and from then on what the last such answer set |
| SocketLoop.TurnsStartInTime | dashboard/dashboard.py:1052-1073 | every turn starts within 30 s, and twice the scheduling slack, of that answer |
| SocketLoop.RechecksAreClose | dashboard/dashboard.py:1052-1073 | a re-check starts at most 30 s after the start of the one before it, plus the time that one's answer took and twice the slack; not sooner unless the session ran out |
| SocketLoop.RechecksOnTime | dashboard/dashboard.py:1052-1073 | with the clocks in step it starts when the schedule or the session runs out, within twice the slack; without slack two starts are at most 30 s apart exactly when the first was answered at once or granted a session that runs out by then |
| SocketLoop.RechecksCanBeFurtherApart | dashboard/dashboard.py:1058-1065 | three turns without slack whose re-checks start 35 s apart |
| SocketLoop.DiscardedBeforeClosed | dashboard/dashboard.py:1058-1064 | a rejected socket leaves the broadcast set before it is closed; nothing else takes it out but the end of the loop |
| Connections.WebSocketConnections.Add | dashboard/dashboard.py:211-214 | joining adds the socket and one to the gauge |
| Connections.WebSocketConnections.Discard | dashboard/dashboard.py:216-220 | leaving is counted only of a member |
| Connections.WebSocketConnections.CloseAll | dashboard/dashboard.py:222-229 | closing empties the set and the gauge by as many |
| Connections.WebSocketConnections.Targets | dashboard/dashboard.py:231-236 | a broadcast sends to the sockets in the set when it begins |
| Connections.WebSocketConnections.Drop | dashboard/dashboard.py:245-252 | dropping failed sockets adds to the shortfall exactly those already gone |
| Connections.GaugeShortfall | dashboard/dashboard.py:211-256 | over every interleaving the gauge is the set's size less the failed sockets already gone at their broadcasts' finish |
| Connections.GaugeExact | dashboard/dashboard.py:245-252 | it is exact precisely when there were none |
| Connections.ShortfallStays | dashboard/dashboard.py:211-256 | the shortfall never shrinks |
| Connections.JoinerStays | dashboard/dashboard.py:231-252 | a socket that joins while a broadcast is pending is never removed by it |
| Connections.GoneForGood | dashboard/dashboard.py:996-1001 | a socket taken out of the set never returns to it |
| Connections.LeavesDuringBroadcast | dashboard/dashboard.py:245-252 | five steps after which the gauge reads one short |
| Progress.CounterIncrease | dashboard/progress.py:102-117 | at each sample inside the run, the growth since the baseline, a drop counting as a restart from zero; nothing without a baseline |
| Progress.AfterIsInside | dashboard/progress.py:110-112 | the samples counted are those later than the start, in order |
| Progress.GrowthIsBounded | dashboard/progress.py:102-117 | one sample never adds more than was counted, and all of it exactly when no reset went unseen |
| Progress.IncreaseNeverExceeds | dashboard/progress.py:102-117 | over any run of counting and resets the increase never exceeds the true count, and equals it exactly when every reset was seen and wiped nothing counted since the last sample |
| Progress.EveryIncreaseIsSafe | dashboard/progress.py:102-117 | the same of what the method returns, at every sample |
| Progress.TotalGrows | dashboard/progress.py:102-117 | the increase is never negative and never falls |
| Progress.IncreaseTelescopes | dashboard/progress.py:102-117 | it is the last sample less the baseline exactly when no sample drops |
| Burnup.ExpectedIsEnough | dashboard/progress.py:128-132 | a total is given exactly when something was extracted and the file's progress is known and positive, and is never below what was extracted, after rounding |
| Burnup.RoundIsNearest | dashboard/progress.py:132-132 | rounding gives the nearest whole number, of two the even one |
| Burnup.ShapeProgress | dashboard/progress.py:142-196 | a row for every entity and for every queue of every consumer, in order, each as the metrics say |
| Burnup.ShapeEntity | dashboard/progress.py:160-178 | an entity's records since the start, and the total they point to unless the gauge still shows the previous run: the file's progress, at most one, times the total is within half of that progress of the records, a tie going to the even total |
| Burnup.TotalSharesOut | dashboard/progress.py:128-178 | the same of any such row; from a full file on the total is what was extracted, and that is the counter's growth to the nearest record |
| Burnup.TotalFallsWithProgress | dashboard/progress.py:128-132 | with nothing more extracted, the total never grows as the file is read on |
| Burnup.RowSaysWhatIsKnown | dashboard/progress.py:120-178 | records are given exactly when there was data at the start, progress exactly when the gauge moved inside the run, and the entity waits otherwise |
| Burnup.ExtractedIsTheDifference | dashboard/progress.py:135-165 | the records of a counter that never drops are its value at the end less that at the start, zero if it had none |
| Burnup.ShapeQueue | dashboard/progress.py:180-195 | a queue's acked count since the start, and at each sample |
| Burnup.LoadedIsTheDifference | dashboard/progress.py:135-193 | so is the loaded count of a queue whose counter never drops |
| Burnup.QueuesByConsumer | dashboard/progress.py:180-182 | the queues come consumer by consumer, each one's in order and under its name |
| Burnup.PointsRise | dashboard/progress.py:180-195 | a queue's points never fall and end at its loaded count |
| Burnup.TotalsAreThisRuns | dashboard/progress.py:120-178 | a total is at least what was extracted, and a gauge unmoved since the start gives none |
| BurnupSeries.Series | dashboard/static/dashboard.js:421-430 | in time order, exactly the times whose tally is full, with their sums over the expected total |
| BurnupSeries.SeriesTimes | dashboard/static/dashboard.js:421-430 | those are the times every queue reported |
| BurnupSeries.TallyRises | dashboard/static/dashboard.js:421-430 | between two such times the sum never falls |
| BurnupSeries.LineRises | dashboard/static/dashboard.js:421-430 | so the line of cells that do not fall does not fall |
| BurnupSeries.LineNeverFalls | dashboard/static/dashboard.js:421-430 | nor does any consumer's line drawn from the broker's counters, through resets, rounding and missing samples |
| Window.QueueHistory.Record | dashboard/static/dashboard.js:45-54 | after any calls the samples are the window of the history computed from scratch; a sample is dropped exactly when a later one came before it |
| Window.LateIsOlder | dashboard/static/dashboard.js:46-47 | older than the last sample kept means later than some sample offered before |
| Window.WindowShape | dashboard/static/dashboard.js:45-54 | strictly increasing, no gap over 30 s, only the first sample at or before the window's start |
| Window.WindowIsUnique | dashboard/static/dashboard.js:45-54 | a history has one window |
| Window.BaselineIsNewest | dashboard/static/dashboard.js:93-100 | depth change is measured from the newest sample at or before the window's start that no gap cuts off |
| Window.ShortHistory | dashboard/static/dashboard.js:93-100 | without one, from the last gap or the first sample |
| Window.CoveredInFull | dashboard/static/dashboard.js:98-100 | coverage is the whole window exactly when there is one |
| Window.ChangeIsOverTheWindow | dashboard/static/dashboard.js:93-100 | the change of depth and the coverage are those since the newest sample at or before the window's start that no gap cuts off, or else the last gap or the first sample |
| Topology.DrawLayout | dashboard/static/dashboard.js:511-552 | the running layout places every node where its closed form says, in order, and joins what it says |
| TopologyTheorems.NodesApart | dashboard/static/dashboard.js:471-477 | no two nodes overlap, for any number of entities and consumers from one up |
| TopologyTheorems.NodeInside | dashboard/static/dashboard.js:511-539 | every node lies inside the drawing, below the headings |
| TopologyTheorems.ExchangeIsCentred | dashboard/static/dashboard.js:521-529 | an exchange stands at the middle of its group of queues |
| TopologyTheorems.SpreadEvenly | dashboard/static/dashboard.js:530-539 | consumers, and datastores, are one distance apart, the first as far from the top as the last from the bottom |
| TopologyTheorems.UniqueInOrder | dashboard/static/dashboard.js:536-536 | datastores come in the order the consumers first name them |
| TopologyTheorems.EachPlaceOnce | dashboard/static/dashboard.js:511-539 | one node for every place and no other |
| TopologyTheorems.DrawingIsClear | dashboard/static/dashboard.js:511-552 | so of whatever is drawn no two nodes overlap and all lie inside |
| TopologyTheorems.EdgesJoinNodes | dashboard/static/dashboard.js:541-549 | every edge joins two nodes of the drawing |
| TopologyTheorems.EdgeCount | dashboard/static/dashboard.js:541-549 | E + 2EC + C edges |
| TopologyTheorems.OneInOneOut | dashboard/static/dashboard.js:545-548 | with distinct names each queue has one edge in, from its entity's exchange, and one out, to its consumer |
| ConsoleSession.AdminSession.ResumeAnswered | dashboard/static/admin.js:694-705 | a resume's answer is heeded only in the generation it was asked in |
| ConsoleSession.AdminSession.VerifyAnswered | dashboard/static/admin.js:709-721 | a check ends only the session it was asked about, never one being signed out |
| ConsoleSession.AdminSession.FetchAnswered | dashboard/static/admin.js:826-835 | a 401 ends only the session its request was made in |
| ConsoleSession.AdminSession.EndSession | dashboard/static/admin.js:731-736 | the generation moves on exactly for the reasons that discard the session |
| ConsoleSession.AdminSession.LoginDone | dashboard/static/admin.js:782-787 | an accepted sign-in begins a generation, which it then resumes |
| ConsoleSession.AdminSession.LogoutBegins | dashboard/static/admin.js:804-806 | from its asking on the page is signing out, and nothing else changes |
| ConsoleSession.AdminSession.LogoutDone | dashboard/static/admin.js:804-822 | a sign-out's answer always ends what is shown |
| ConsoleTheorems.EffectTurns | dashboard/static/admin.js:694-835 | of every kind of answer: it raises the generation, by one, exactly when it accepts a sign-in, answers a sign-out, or is heeded and finds the session gone |
| ConsoleTheorems.EndingsAreExplained | dashboard/static/admin.js:694-822 | in any run, after every answer the sign-in form gives the reason it should: a sign-out is confirmed exactly by a 2xx or a 401, a session missing to a check is invalid, a missing one at load needs no reason, and a stale answer changes nothing |
| ConsoleTheorems.GenerationTurns | dashboard/static/admin.js:694-835 | in any run the generation rises from any answer to any later one by exactly the number of those between them; it never falls and nothing else moves it |
| ConsoleTheorems.StaleAnswersAreInert | dashboard/static/admin.js:707-735 | for every order of answers, a check or request that changes the page was asked with no sign-in and no discarding end since |
| ConsoleTheorems.StaleResumesAreInert | dashboard/static/admin.js:694-705 | the same of a resume that opens or ends anything |
| ConsoleTheorems.OpensOncePerSession | dashboard/static/admin.js:694-705 | no session is shown twice, nor again once it ended |
| ConsoleTheorems.SignOutEndsWhatIsShown | dashboard/static/admin.js:804-822 | a sign-out ends whatever is shown at its answer: its own session exactly when since its asking no other sign-out was answered, no sign-in accepted, and no heeded resume found the session gone |
| ConsoleTheorems.AloneSignOutEndsItsOwn | dashboard/static/admin.js:804-822 | with no sign-in, sign-out or resume in flight at its asking and none begun before its answer, it ends its own session, whatever checks and requests come and go |
| ConsoleTheorems.SecondSignOutEndsALaterSession | dashboard/static/admin.js:804-822 | an order of answers in which it ends a later one |
| LedgerReads.LedgerPanel.Ask | dashboard/static/admin.js:2959-2966 | a read supersedes the one before, stops its retry and shows the spinner |
| LedgerReads.LedgerPanel.Heed | dashboard/static/admin.js:2967-2990 | what each kind of answer shows, when it is the newest read's |
| LedgerReads.LedgerPanel.SignedOut | dashboard/static/admin.js:605-610 | going back to the login form stops the retry and clears the "being built" notice |
| LedgerReads.PanelShowsNewest | dashboard/static/admin.js:2958-3021 | for every order of reads, answers and sign-outs: the reads heeded are ever newer ones; the rows are those of the last data heeded, through failures, and none after a list is said to be being built; the spinner shows exactly while the newest read is unanswered, an error or a retry exactly while the newest read's answer says so, "being built" exactly while the last answer does, these two until a sign-out |
| LedgerReads.SupersededReadsAreDropped | dashboard/static/admin.js:2958-2990 | an answer is heeded exactly when no newer read was asked for; a superseded one changes nothing |
| LooseScan.NextIsLeast | dashboard/platform_health.py:344-346 | one step of the walk finds the least version after the last, or none |
| LooseScan.EachVersionOnce | dashboard/platform_health.py:342-348 | the recursion stops and lists each distinct version once, ascending, then one null |
| LooseScan.AnswerIsNewest | dashboard/platform_health.py:337-357 | with one load time per version the row chosen is the newest of the table; there is none exactly when the table is empty |
| LooseScan.AlwaysNewest | dashboard/platform_health.py:337-357 | whichever rows are picked, the newest is found exactly when some version carries it on all its rows |
| LooseScan.OlderRowChosen | dashboard/platform_health.py:349-357 | a table of two rows of one version of which the query may answer the older |

## Left out

- Delivery: the backlog is read and put on the socket in one step, as no other task runs between building the
  message and starting its send; a browser's log is modelled before it trims the oldest entries, and the ring size is
  the default.
- EventDetectors.EventDetector.Observe: writes each queue's condition back into the reading; here the verdicts are an
  out-parameter. Labels, messages and their formatting are not modelled, only levels, kinds and subjects. Of a reading in
  which two rows of one list share a name, only the fold is stated.
- Stall.StalledInTheConsole: one vhost per pipeline; with several, queues of one name would share the detector's key.
- Stores, Tickets, Gate: tokens and tickets are known by their digests, taken to be injective, and tickets drawn are
  never drawn twice; each operation reads each clock once, where the code reads the wall clock and then the monotonic one.
- GateTheorems.EvictionAsksMoreUnless: the stores without bounds are given the answers the bounded run got, since two runs
  differ once only one of them asks.
- Gate.SessionGate.Forget: a header that carries no bearer changes nothing and is not modelled.
- SocketLoop.RechecksOnTime: speaks of clocks that advance together and of sessions still live when granted, as every
  granted session is (`Gate.FetchedMeans`).
- SocketLoop.Attend: clock readings, answers and frames are a script given to the loop; cancellation inside
  `asyncio.wait_for` is not modelled, except that a wait of zero starts no receive.
- Connections: sockets are numbers, never reused; closing them and the sends themselves are left out.
- Progress, Burnup: VictoriaMetrics' answers are taken as parsed, and floating-point rounding is not modelled, only
  Python's `round`. Counters are taken to be non-negative.
- BurnupSeries.Series: times are compared as they are, not as ISO text parsed back to milliseconds, and the final sort
  is a repeated choice of the least; the map's insertion order does not matter to it.
- Topology.DrawLayout: node keys are a datatype rather than text joined with colons; the curves' path text is left out.
- ConsoleSession: the server's side of the session cookie, timers, toasts and the pending-sign-out mark other than at
  load; the legacy bearer.
- LedgerReads: one panel at a time; its contents are a number, and the retry delay and the one notice that the panels share
  are left out.
- LooseScan: versions are integers in the order of their index; a null version in the table is not modelled.
- HTTP clients and routes, cookies, redaction, RabbitMQ, PostgreSQL and Neo4j access, OpenTelemetry: plumbing. catalog-api
  is whatever it answers.
- History charts, DOM rendering, the catalog contract and the topology of queue names: they would add only easy members.
