# pgxsinkit: models and proofs

This project models the parts of pgxsinkit whose correctness spans many steps, many callers or a crash, and proves
what their documentation promises. It covers:

- the Event lane: the durable Outbox, its flush passes, batch selection and assembly, settlement, backoff and the
  drain signal. `EventLaneProtocol` is a state machine whose steps are single statements, requests and replies, with
  an adversarial server and crashes between any two steps; `EventLaneRuntime` is the imperative code, proved to be
  runs of that machine; `EventLaneSafety` holds the whole-run theorems, `EventLanePacing` one of them for a lane in use, `EventLaneStarvation` what a zero backoff does;
- the two coalescing drivers, both proved against one machine (`CoalescingMachine`, `Drivers`);
- the unit-test selection cache and the sharder (`TestSelection`, `CertifiedRedTree`, `ValidateCache`,
  `ImportClosure`, `UnitTestShards`, `LptBound`, `WorkerPool`);
- the board's read filters against its row-level security (`Board*`, `ReadPredicate`), in three-valued logic;
- the property fixes of the rename codemod (`PropertyFixes`);
- the lazy guard's substring scan and its backstop (`LazyGuard*`, `SqlText`);
- the OPFS ownership lock (`StoreOwnership`, `StoreOwnershipProtocol`);
- installing the pinned artefacts (`Artefacts`);
- the mutation journal's recovery marker and registry reconciliation (`MutationState`, `LocalStore`,
  `RecoveryProtocol`, `JournalHistory`).

`Counting`, `Options`, `Characters` and `Sequences` are shared helpers.

## Where the code differs from what is said of it

Each of these is stated by the members named, with the exact condition under which the code does meet it.

- A backoff override written down as `undefined` passes validation as if left out, but hides the global bound from
  the runtime (`UndefinedOverrideEscapes`, `RuntimePairIsOrderedExactly`).
- A status listener that subscribes another from inside a delivery makes the new one hear the same state twice; one
  that throws starves those behind it, and rejects an append whose row is staged (`PublishKeepsAllInStep`,
  `PublishKeepsAllInStepBefore`, `StarvedHearsTheOldStateAgain`, `AppendEvent`).
- A pass does not always drain what is eligible. On a backoff base of zero, which validation accepts, rows that are
  deferred stay at the head of the selection, and those behind them are never sent (`DrainSlices` has the exact
  condition; `RowsBehindStarve`, `SecondRowWaitsForever`).
- A driver's `stop`, called by `flush` before its first `await`, resolves while the pass runs
  (`StopIsFinalExactly`).
- A fingerprint is taken before the shards run, so an edit in between can certify a failing tree
  (`EditWhileRunning`). It cannot exactly when no tree since changed an input of a test that is about to be newly
  recorded (`SafeExactly`); for given verdicts, exactly when what is recorded passes on the tree it was
  fingerprinted on (`GreenThroughoutExactly`).
- With neither a subject nor the Admin role the filters show nothing, the policies the global channels and their
  messages (`WithoutStandingTheySplit`).
- The lazy guard reports names that spell what stands between two identifiers (`GapIsMisread`); for every other
  unqualified name it is exact (`ReadExactlyUnlessGap`). The source says that a
  qualified token needs no alias guard; the code applies it to all tokens, and so does the model. As long
  as neither an alias nor the type of a cast has three parts, that costs nothing (`NotShadowedByAliases`).
- A registry that no longer writes a table hides that table's journal from recovery, from the guarded clear and from
  the count of owed mutations (`RecoveryIsSoundExactly`, `NoRebuildWhileOwed`). The whole-run theorems therefore
  assume that each boot's registry writes every table with a row left `sending`.
- The table of transitions takes a failed mutation back to `pending` before it is sent again. The code selects failed rows
  next to pending ones and marks them `sending` at once (`FailedRowIsClaimed`); a row's history follows the table exactly
  when no claim takes it in another state than those the table sends from (`HistoryExactly`).
- The rebuild drops the Outbox without asking whether events are staged there (`RebuildDropsTheOutbox`).
- Installing artefacts leaves files that no pin names where they are, so a directory need not hold exactly the pinned
  files afterwards (`LeftoverStays`). It does exactly when, besides them, it held nothing before but `.part` names of
  files that were stale (`DirectoryAfter`).

## Model

| member | source | states |
|---|---|---|
| EventLaneSafety.NoEventLost | packages/client/src/event-lane.ts:985-1040 | over every run with lost, wrong or repeated replies and with crashes between statements, each appended event is in the Outbox or was given a terminal verdict in answer to a request that carried it |
| EventLaneSafety.RowsLeaveOnlyWhenDue | packages/client/src/event-lane.ts:620-624 | a row leaves the table in two ways only: acked and swept once the retention in force has elapsed since its stamp, or pending and deleted on a verdict that is not retained |
| EventLaneSafety.RetentionIsKept | packages/client/src/event-lane.ts:614-624 | over every run: an event whose ack was settled by a stamp stays for the retention in force counted from that settlement, and goes with any sweep that succeeds after it |
| EventLaneSafety.StampIsNow | packages/client/src/event-lane.ts:880-890 | the stamp of an ack is the time of its settlement |
| EventLaneSafety.StampStays | packages/client/src/event-lane.ts:880-890 | no later statement changes a stamp |
| EventLaneSafety.SweepTakesExactly | packages/client/src/event-lane.ts:619-624 | a sweep takes exactly the rows stamped no later than the retention before now |
| EventLaneSafety.SweptBeforeGate | packages/client/src/event-lane.ts:1050-1058 | no pass of a retaining lane comes to its gate unswept |
| EventLaneSafety.SettledNeverPosted | packages/client/src/event-lane.ts:742-750 | once an event's terminal verdict has been settled no later request carries it, across restarts too |
| EventLaneSafety.OneRequestAtATime | packages/client/src/event-lane.ts:1129-1135 | overlapping flush calls run one at a time in call order, even after a failed pass, so at most one request is outstanding and no event is in two |
| EventLaneSafety.DrainSignalIsTrue | packages/client/src/event-lane.ts:589-610 | the published signal is never `empty` while an event whose append has resolved awaits a verdict |
| EventLaneSafety.PublishedExactly | packages/client/src/event-lane.ts:595-610 | a read of the signal publishes exactly whether every event ever appended has had its verdict settled |
| EventLaneSafety.BackoffIsRespected | packages/client/src/event-lane.ts:913-931 | after a failed batch no request leaves this runtime before half the doubling bound of that attempt has passed, nor before the step's own jittered delay and Retry-After (section 10.2.3 of RFC 9110) have |
| EventLaneSafety.BackoffEnds | packages/client/src/event-lane.ts:1059-1065 | once that bound and Retry-After have passed and no other batch failed, the gate lets a pass through |
| EventLaneSafety.DeferralIsRespected | packages/client/src/event-lane.ts:893-908 | a deferred event is not read again before its retry time, restarts included |
| EventLaneSafety.DeferralParks | packages/client/src/event-lane.ts:893-908 | a deferral writes the attempt, the retry time and the server's reason to its event's row |
| EventLanePacing.NextRequestWaits | packages/client/src/event-lane.ts:913-931 | the same of the steps of a lane in use, with the bounds of its options |
| EventLaneSafety.HeldAfterFailure | packages/client/src/event-lane.ts:1059-1065 | from a failed batch until it is due the gate stays shut and no pass is past it |
| EventLaneSafety.RunKeepsInv | packages/client/src/event-lane.ts:1042-1124 | every reachable state satisfies the lane's invariant |
| EventLaneProtocol.StepKeepsInv | packages/client/src/event-lane.ts:985-1124 | every step keeps it: append, select, post, reply, each settlement statement, sweep, probe, failure, crash |
| EventLaneProtocol.SettleAckKeepsInv | packages/client/src/event-lane.ts:998-1031 | one ack at a time: repeated acks and acks for events that were not sent included |
| EventLaneProtocol.DeleteKeepsInv | packages/client/src/event-lane.ts:864-873 | the delete of settled verdicts on its own, before the stamp, keeps it |
| EventLaneProtocol.StampKeepsInv | packages/client/src/event-lane.ts:880-890 | the stamp of retained acks keeps it |
| EventLaneRuntime.LeadsKeepsInv | packages/client/src/event-lane.ts:1044-1124 | whatever the code runs, as steps of the machine from a state in order, it ends in a state in order |
| EventLaneRuntime.EventLane.constructor | packages/client/src/event-lane.ts:552-573 | a new lane has the batch size, the caps, the bounds and the retention of its options, and nothing published |
| EventLaneRuntime.BoundsAreRuntimePairs | packages/client/src/event-lane.ts:562-565 | its bounds are those the tuning theorems are about |
| EventLaneRuntime.CapsAreConfigured | packages/client/src/event-lane.ts:735-741 | a stream is capped exactly where its options give a batch size, and at that |
| EventLaneRuntime.EventLane.InitialProbe | packages/client/src/event-lane.ts:626-643 | the sweep and the probe at construction: the ledger is swept or left, and what is published is whether a row awaits a verdict |
| EventLaneRuntime.EventLane.AppendEvent | packages/client/src/event-lane.ts:692-733 | an event is refused for an unknown stream or an oversized payload, and only then; on a failed insert nothing changes; otherwise its row is in the table and the signal says so, though a status listener's throw may still reject the append |
| EventLaneRuntime.EventLane.PublishAppended | packages/client/src/event-lane.ts:729-732 | the append resolves unless a listener throws, and one is called only where the signal did not say so already |
| EventLaneRuntime.EventLane.SweepAckedLedger | packages/client/src/event-lane.ts:1050-1058 | where the sweep goes through, what is left are the rows that are pending or younger than the retention; its failure is swallowed and leaves all |
| EventLaneRuntime.EventLane.PostBatch | packages/client/src/event-lane.ts:943-982 | a request and its one retry after an auth failure end in acks or in the backoff, whose wait lies between half the doubling bound and the bound unless the server asked for longer |
| EventLaneRuntime.EventLane.EnterBatchBackoff | packages/client/src/event-lane.ts:913-931 | the attempt count goes up, and the wait is at least half the doubling bound of that attempt and at least Retry-After, and no longer than the longer of bound and Retry-After |
| EventLaneRuntime.EventLane.ReadEligibleRows | packages/client/src/event-lane.ts:752-798 | the rows handed over are those of the ranked selection on the table as it is |
| EventLaneRuntime.EventLane.ReadBatch | packages/client/src/event-lane.ts:1078-1088 | what is sent is the longest run of the selected rows not deferred in this pass whose request keeps within the byte cap; with nothing to send, everything selected was deferred in this pass |
| EventLaneRuntime.EventLane.DeferEvent | packages/client/src/event-lane.ts:893-908 | a deferred row's attempt count goes up by one and its retry time out by a delay between half the doubling bound of that attempt and stream and the bound |
| EventLaneRuntime.EventLane.SettleOne | packages/client/src/event-lane.ts:998-1031 | one ack adds its event, where it was sent, and no other to what is parked, stamped or deleted; parking leaves the pending events as they were |
| EventLaneRuntime.EventLane.CollectVerdicts | packages/client/src/event-lane.ts:985-1031 | the collected verdicts are those of the acked events that were sent, and deferring leaves the pending events as they were |
| EventLaneRuntime.EventLane.SettleAcks | packages/client/src/event-lane.ts:985-1040 | where anything is settled, fewer pending events are left to this pass; a reply that answers an envelope settles something; the batch backoff clears |
| EventLaneRuntime.EventLane.DrainSlices | packages/client/src/event-lane.ts:1078-1117 | the slices end for any ack lists, backoffs of zero included; unless a settlement throws, nothing is left eligible exactly when the last read gave only rows deferred in this pass and none of those is due again; that is so when every envelope was answered and the clock has not run past the shortest deferral delay |
| EventLaneRuntime.EventLane.RunFlush | packages/client/src/event-lane.ts:1044-1124 | the same of a whole pass, sweep, gate and drain signal included, the deferred set being the one the pass ends with; a pass the gate held back says so |
| EventLaneRuntime.EventLane.Flush | packages/client/src/event-lane.ts:1129-1135 | a call leaves every call settled, with the exact drain condition of its pass |
| EventLaneRuntime.EventLane.RefreshDrainSignal | packages/client/src/event-lane.ts:606-610 | what is published is whether a row awaits a verdict |
| EventLaneRuntime.PositiveBoundsDelay | packages/client/src/event-lane.ts:893-896 | positive bounds give every first and later deferral a positive delay, whatever the jitter |
| EventLaneRuntime.NothingEligible | packages/client/src/event-lane.ts:1078-1082 | when only rows parked in this pass are selected and none is due again, no row is eligible |
| EventLaneRuntime.DrainedExactly | packages/client/src/event-lane.ts:1078-1082 | when only rows deferred in this pass are selected, nothing is eligible exactly when none of the rows it deferred is due |
| EventLaneStarvation.RowsBehindStarve | packages/client/src/event-lane.ts:1074-1082 | over any steps of the machine in which the rows ahead get nothing but deferrals for no time, a row that they crowd out, by the batch size or by its stream's cap, stays in the table, due, and no request carries it, restarts included |
| EventLaneStarvation.CrowdedOut | packages/client/src/event-lane.ts:752-798 | the query selects no row that as many due rows as the batch size, or the cap of its stream, stand before |
| EventLaneStarvation.StepKeepsStarving | packages/client/src/event-lane.ts:985-1124 | one such step of any kind leaves the row and those ahead of it due, and in no batch or in none but to be deferred |
| EventLaneStarvation.ZeroBaseSpins | packages/client/src/event-lane.ts:893-908 | the deferrals a zero base gives are of that kind, whatever the attempts and the jitter |
| EventLaneStarvation.SomebodyIsBehind | packages/client/src/event-lane.ts:752-770 | wherever more rows are due than an uncapped batch takes there is such a row |
| EventLaneStarvation.SecondRowWaitsForever | packages/client/src/event-lane.ts:1074-1117 | a history for any number of passes: two rows due, one event a batch; each pass sends and defers the first, finds nothing else to send and is over, and the second is never sent |
| EventLaneStarvation.StuckFromEmpty | packages/client/src/event-lane.ts:692-733 | two appends to an empty Outbox lead to where that history starts |
| EventLaneStarvation.PassEndsOnItsOwnDeferrals | packages/client/src/event-lane.ts:1079-1082 | a pass that deferred all it had selected for no time ends with nothing to send though rows are still eligible |
| EventLaneStarvation.DeferringForNothing | packages/client/src/event-lane.ts:893-908 | the deferrals a zero base gives leave the rows due |
| EventLaneRuntime.SelectsSomething | packages/client/src/event-lane.ts:752-798 | the caps never hide everything: where a row is eligible the query returns one |
| BatchSelection.RankedIsGreedy | packages/client/src/event-lane.ts:752-817 | the ranked query with per-stream caps returns exactly what a greedy scan in `seq` order with per-stream counters takes |
| BatchSelection.WithinCapsIsFilter | packages/client/src/event-lane.ts:776-793 | a row is kept exactly when its stream is uncapped or its rank within its stream is at most the cap |
| BatchSelection.EveryStreamRides | packages/client/src/event-lane.ts:771-775 | all streams capped and the caps summing to at most the batch size, the first row of every stream with an eligible row is selected |
| BatchAssembly.RequestBytesIsExact | packages/client/src/event-lane.ts:824-858 | the running byte count is the exact length of the serialized request body (RFC 8259, section 5) |
| BatchAssembly.BodyGrowsBy | packages/client/src/event-lane.ts:844 | another envelope costs its own JSON and a comma unless it is the first |
| BatchAssembly.EnvelopeTellsRow | packages/client/src/event-lane.ts:824-858 | an envelope reads back as its row's stream, event, time and payload |
| BatchAssembly.QuotedReadsBack | packages/client/src/event-lane.ts:843-846 | a quoted text ends at its own quote and reads as what was written (RFC 8259, section 7) |
| BatchAssembly.BytesOfChar | packages/client/src/event-lane.ts:843-846 | a character counts as many bytes as its UTF-8 encoding has, which decodes to it (RFC 3629, section 3) |
| BatchAssembly.AssembleBatch | packages/client/src/event-lane.ts:824-861 | the count is kept exact, a batch of two or more never exceeds the request cap, a non-empty list yields a non-empty batch, and on the query's rows nothing but the byte cap holds one back |
| BatchAssembly.QueryIsWithin | packages/client/src/event-lane.ts:836-840 | the in-memory cap check never drops a selected row, also after the rows deferred in this pass were taken out |
| BatchAssembly.EveryStreamRidesUnlessClamped | packages/client/src/event-lane.ts:819-823 | a stream whose first eligible row does not ride the first slice was cut by the byte cap |
| EventBackoff.ValidateEventLaneOptions | packages/client/src/event-lane.ts:439-528 | validation passes exactly the configurations whose entries are objects and meet the stated bounds, each pair judged as resolved |
| EventBackoff.RequireBackoff | packages/client/src/event-lane.ts:476-507 | one backoff is resolved against what it inherits, and is reported unless its numbers are usable and ordered |
| EventBackoff.RuntimeBoundsAreFinite | packages/client/src/event-lane.ts:562-565 | an accepted configuration gives every stream, and the batch level, finite non-negative bounds |
| EventBackoff.RuntimePairIsOrdered | packages/client/src/event-lane.ts:562-565 | the base is at most the ceiling in the pair the runtime uses, unless an override is written down as undefined |
| EventBackoff.RuntimePairIsOrderedExactly | packages/client/src/event-lane.ts:562-565 | of an accepted configuration as written: the runtime pair is out of order exactly where a stream writes its base as undefined over a given global one under a ceiling below 1000 ms, its own or else the global one, or its ceiling so over a base above 300000 ms |
| EventBackoff.UndefinedOverrideEscapes | packages/client/src/event-lane.ts:562-565 | a configuration validation accepts whose runtime pair is not ordered |
| EventBackoff.BatchPairIsOrdered | packages/client/src/event-lane.ts:562-565 | the batch-level pair is always ordered |
| EventBackoff.ComputeEventBackoffMs | packages/client/src/event-lane.ts:386-392 | the delay lies between half of and all of min(base * 2^(n-1), ceiling), rounded |
| EventBackoff.BoundIsMonotone | packages/client/src/event-lane.ts:389-390 | that bound never falls from one attempt to the next |
| EventBackoff.BoundDoubles | packages/client/src/event-lane.ts:386-396 | the bound starts at the base and doubles from attempt to attempt up to the ceiling |
| EventBackoff.RoundsToNearest | packages/client/src/event-lane.ts:386-396 | the delay is the nearest whole millisecond to half the bound and the jitter's share of the other half |
| EventBackoff.BoundReachesCeiling | packages/client/src/event-lane.ts:389-390 | with a positive base it reaches the ceiling |
| EventBackoff.BatchSize | packages/client/src/event-lane.ts:550-552 | the batch size in force lies between one and the contract's cap |
| DrainSignal.SubscribersStayInStep | packages/client/src/event-lane.ts:575-583 | over every run in which no listener throws or subscribes another, each subscriber hears a strictly alternating sequence that ends with the state while it stays |
| DrainSignal.PublishKeepsInStep | packages/client/src/event-lane.ts:575-583 | a publish delivers a new state once to each subscriber that stays, and keeps it in step |
| DrainSignal.PublishKeepsAllInStep | packages/client/src/event-lane.ts:575-583 | joins, leaves and throws together: everyone is in step after a publish exactly when there was nothing to say, or everyone from before who is still there was called and no newcomer was |
| DrainSignal.PublishKeepsAllInStepExactly | packages/client/src/event-lane.ts:580-582 | where nobody leaves, that is a test on what the calls do: none made but the last throws, and either the last one does or none subscribes anybody |
| DrainSignal.PublishKeepsAllInStepBefore | packages/client/src/event-lane.ts:575-583 | joins, leaves and throws together as a test before the call: the visit played on the numbers of those there alone calls all that will still be there and nobody else |
| DrainSignal.PlayedIsTheVisit | packages/client/src/event-lane.ts:575-583 | that play calls, keeps and counts the subscribers the visit does |
| DrainSignal.InStepAllAlongExactly | packages/client/src/event-lane.ts:575-583 | over any run, everyone is in step all along exactly when each publish of a new state calls everyone who stays and no newcomer |
| DrainSignal.InStepExactly | packages/client/src/event-lane.ts:580-582 | a subscriber is in step after a publish exactly when it was called or left, a newcomer exactly when it was not called |
| DrainSignal.StarvedHearsTheOldStateAgain | packages/client/src/event-lane.ts:580-582 | a subscriber that stays and is not called, since one before it threw, is out of step, and called at the next publish it hears a state it has heard already |
| DrainSignal.JoinedInsideHearsTwice | packages/client/src/event-lane.ts:1147-1149 | a subscriber that joined from inside a delivery hears the same state twice |
| DrainSignal.ThrowingListenerStarvesTheNext | packages/client/src/event-lane.ts:580-582 | one instance of that: two listeners, the first of which throws once |
| DrainSignal.ProbeDeliversOnlyTheMissed | packages/client/src/event-lane.ts:1150-1155 | the initial probe's callback never delivers twice, and is needed only for a subscriber that was missed |
| DrainSignal.DrainSignalHub.PublishEmpty | packages/client/src/event-lane.ts:575-583 | the loop over the live set delivers what the specification says, listeners that subscribe, leave and throw included |
| DrainSignal.DrainSignalHub.OnOutboxStatus | packages/client/src/event-lane.ts:1137-1160 | a known state is delivered on subscribe |
| DrainSignal.DrainSignalHub.InitialProbeSettled | packages/client/src/event-lane.ts:1151-1155 | the guarded delivery after the probe |
| CoalescingMachine.OnePassInFlight | packages/client/src/convergence.ts:78-114 | passes started are passes finished plus the one in flight, if any |
| CoalescingMachine.ChecksWithinSignals | packages/client/src/convergence.ts:79-92 | passes started never exceed signals received |
| CoalescingMachine.SignalsAreChecked | packages/client/src/event-lane.ts:1230-1263 | every signal that no disposal follows is followed by a gate check, or is owed one |
| CoalescingMachine.BurstCausesOneFollowUp | packages/client/src/convergence.ts:110-113 | any burst during a pass causes exactly one follow-up, whatever onPass then asks for and flush does, and none where one of those disposes of the driver |
| CoalescingMachine.FollowUpIsChecked | packages/client/src/convergence.ts:110-113 | the follow-up asks the gate once, and what flush does first comes after |
| CoalescingMachine.StopIsFinal | packages/client/src/convergence.ts:127-134 | once a stop that waits for the pass in flight has resolved, nothing runs and nothing starts |
| CoalescingMachine.StopIsFinalExactly | packages/client/src/event-lane.ts:1281-1291 | that is so exactly when the stop could see the pass in flight; called by `flush` before its first await it cannot |
| Drivers.LifeKeepsPromises | packages/client/src/convergence.ts:78-114 | of a driver's whole life, which is one history of the machine: one pass at a time, no more gate checks than signals, every signal answered or owed a check |
| Drivers.LifeEndsWithStop | packages/client/src/convergence.ts:127-134 | and once a stop that waits for the pass in flight has resolved, nothing runs and nothing starts |
| Drivers.ConvergenceDriver.RunPass | packages/client/src/convergence.ts:78-108 | the convergence driver's pass, up to its first await, tells the machine's history |
| Drivers.ConvergenceDriver.PassSettles | packages/client/src/convergence.ts:104-114 | its settling, `onPass` re-entering the driver included, tells the machine's settling |
| Drivers.ConvergenceDriver.StopNow | packages/client/src/convergence.ts:127-134 | its stop is the machine's stop, waiting when it can see a pass |
| Drivers.ConvergenceDriver.SignalNow | packages/client/src/convergence.ts:122-124 | its signals are the machine's |
| Drivers.ConvergenceDriver.Start | packages/client/src/convergence.ts:117-126 | starting twice, or after a stop, does nothing; otherwise it signals |
| Drivers.ConvergenceDriver.CallStop | packages/client/src/convergence.ts:127-134 | a stop from outside the callbacks waits exactly when a pass is running |
| Drivers.EventFlushDriver.RunPass | packages/client/src/event-lane.ts:1230-1258 | the event driver's pass tells the same machine's history, its gate optional |
| Drivers.EventFlushDriver.PassSettles | packages/client/src/event-lane.ts:1253-1263 | its settling tells the same machine's settling |
| Drivers.EventFlushDriver.StopNow | packages/client/src/event-lane.ts:1281-1291 | its stop is the machine's stop |
| Drivers.EventFlushDriver.SignalNow | packages/client/src/event-lane.ts:1271-1279 | its ticks, gate signals and nudges are the machine's signals |
| Drivers.EventFlushDriver.Start | packages/client/src/event-lane.ts:1266-1280 | starting twice, or after a stop, does nothing; otherwise it signals |
| Drivers.EventFlushDriver.CallStop | packages/client/src/event-lane.ts:1281-1291 | a stop from outside the callbacks waits exactly when a pass is running |
| LptBound.LongestFirstBound | scripts/run-unit-tests.ts:81-87 | a longest-first greedy placement is within 4/3 - 1/(3m) of every other assignment to the same m slots |
| LptBound.BigJobFits | scripts/run-unit-tests.ts:85-87 | a job heavier than a third of the other assignment's heaviest slot never makes the placement overflow it |
| LptBound.LastJobAverages | scripts/run-unit-tests.ts:85-87 | a lighter one lands on a slot no heavier than the average of the rest |
| UnitTestShards.BuildShards | scripts/run-unit-tests.ts:77-90 | each file is in exactly one non-empty shard, isolated files alone, shards heaviest first; the bulk has at most twice as many shards as there are workers, and none exceeds 4/3 - 1/(3m) times the heaviest bin of any distribution over at most m = 2 * concurrency bins |
| UnitTestShards.NearOptimalOverAll | scripts/run-unit-tests.ts:83 | packing into as many bins as there are files, where those are fewer, loses nothing against any more bins |
| UnitTestShards.CostsAddUp | scripts/run-unit-tests.ts:74-75 | a shard costs the sum over its files of the recorded weight, or one where none is recorded |
| UnitTestShards.PackLongestFirst | scripts/run-unit-tests.ts:84-87 | the loop over re-sorted bins is a longest-first greedy placement of the files |
| UnitTestShards.DistributionAsAssignment | scripts/run-unit-tests.ts:74-75 | a distribution of the files over m bins is an assignment of the jobs with the same loads |
| WorkerPool.RunShards | scripts/run-unit-tests.ts:144-158 | whatever the interleaving of the workers, each shard is run once and its outcome recorded |
| WorkerPool.RunUnitTests | scripts/run-unit-tests.ts:136-169 | every requested file is run in exactly one shard whose exit code is reported |
| WorkerPool.IsolatedRunAlone | scripts/run-unit-tests.ts:78 | a shard that holds an isolated file holds nothing else |
| ImportClosure.BuildClosure | scripts/select-unit-tests.ts:252-274 | the closure is exactly what the module edges reach, with the assets of what they reach, on cyclic graphs too; its flags say exactly whether a doubtful file or an undeclared reader is reached |
| ImportClosure.WalkEnds | scripts/select-unit-tests.ts:257-273 | when the queue is empty the files seen are exactly those that can be reached |
| ImportClosure.UnreadableIsInDoubt | scripts/select-unit-tests.ts:178-184 | a file that imports lead to and that cannot be read puts the closure in doubt |
| ValidateCache.FingerprintIsExact | scripts/lib/validate-cache.ts:86-92 | two fingerprints are equal exactly when they cover the same paths and each has the same content on both trees, whatever the order and repetitions of the lists |
| ValidateCache.TextTellsPairs | scripts/lib/validate-cache.ts:87-90 | the hashed text determines the (path, hash) pairs |
| ValidateCache.ContentHashIgnoresTracking | scripts/lib/validate-cache.ts:71-83 | a file's hash is that of its content on disk, however it is tracked |
| ValidateCache.Fingerprint | scripts/lib/validate-cache.ts:86-92 | what is fed to the hash, piece by piece, is that text |
| TestSelection.SkippedTestsPass | scripts/select-unit-tests.ts:342-352 | over any run of edits, selections, passing and failing shards, forced runs, audits and kills, edits while shards run included, a test file that is skipped would pass, provided that no run was ended with a pass recorded for a tree that fails |
| TestSelection.SelectedRunAgrees | scripts/select-unit-tests.ts:362-377 | the shards that ran all exit 0 exactly when every test file passes |
| TestSelection.SafeExactly | scripts/select-unit-tests.ts:331-377 | edits while shards run are harmless, whatever the verdicts and however the shards end, exactly when every tree since left each test about to be newly recorded certifiable and its inputs as they were fingerprinted |
| TestSelection.GreenThroughoutExactly | scripts/select-unit-tests.ts:331-377 | over any run, for one verdict: every fingerprint ever registered was taken on a tree on which its test passes, exactly when each end of a run recorded only what passes on the fingerprinted tree |
| TestSelection.EndKeepsGreenExactly | scripts/select-unit-tests.ts:362-373 | the same of one end of a run |
| TestSelection.HarmlessIsHonest | scripts/select-unit-tests.ts:331-377 | runs whose edits keep the inputs of the tests at risk meet that condition |
| TestSelection.DishonestEndSkipsAFailure | scripts/select-unit-tests.ts:342-373 | and where it fails, the failing test is skipped on the tree it was fingerprinted on |
| TestSelection.GreenExactly | scripts/select-unit-tests.ts:331-339 | a fingerprint of a tree is green exactly when the test passes there |
| TestSelection.CertifiedIsSkipped | scripts/select-unit-tests.ts:343-344 | a test whose certified fingerprint still stands is not run again |
| TestSelection.ForcedRunsAll | scripts/select-unit-tests.ts:342-348 | a forced run and an audit run every test file |
| TestSelection.FingerprintTellsInputs | scripts/select-unit-tests.ts:331-339 | equal fingerprints of a test were taken over equal inputs |
| TestSelection.OneFingerprint | scripts/select-unit-tests.ts:331-339 | and equal inputs have equal fingerprints |
| TestSelection.StepKeepsInv | scripts/select-unit-tests.ts:362-377 | a step keeps every registered fingerprint green exactly when it does not end a run dishonestly |
| TestSelection.EditWhileRunning | scripts/select-unit-tests.ts:331-371 | where the guarantee ends: an edit between the fingerprint and the run certifies a tree on which the test fails |
| CertifiedRedTree.EditCertifiesTheRedTree | scripts/select-unit-tests.ts:331-371 | its conditions hold together: a concrete history, with injective object ids and a verdict that depends only on what it may |
| TestSelection.Dispose | scripts/select-unit-tests.ts:316-340 | a test gets a fingerprint exactly when its graph is beyond doubt and its reads are declared, and then over exactly what its verdict may depend on |
| TestSelection.Select | scripts/select-unit-tests.ts:315-348 | what is run is what has no fingerprint or an unregistered one, or everything |
| TestSelection.Prime | scripts/select-unit-tests.ts:365-373 | exactly the fingerprinted files of shards that exited 0 are recorded |
| TestSelection.RunSelection | scripts/select-unit-tests.ts:287-378 | one invocation, from selection through the shards to the registry, is a step of that history and its exit code agrees with running everything |
| BoardVisibility.FilterAgreesWithPolicy | packages/board-schema/src/schema.ts:216-234 | for any claims with a subject or the Admin role and any database, each table's read filter shows a row exactly when its SELECT policy does, a Member's messages being cut by the chat window besides |
| BoardVisibility.CutoffIsMidnight | packages/board-schema/src/schema.ts:55-60 | the chat window begins at the UTC midnight three weeks before the last one |
| BoardVisibility.WithoutStandingTheySplit | packages/board-schema/src/policies.ts:117-120 | with neither, the filters show nothing and the policies exactly the global channels and their messages |
| BoardVisibility.VisibleMessageHasItsChannel | packages/board-schema/src/schema.ts:216-234 | a visible message's channel is visible |
| BoardVisibility.VisibleRowHasItsTeam | packages/board-schema/src/schema.ts:165-174 | a visible team channel's, issue's or membership's team is visible |
| BoardVisibility.ChannelSetsAgree | packages/board-schema/src/policies.ts:158 | the filter's nested subquery and the policy's sub-select, which runs under the channel's own policy, give the same channels |
| BoardVisibility.SameMemberTeams | packages/board-schema/src/schema.ts:51-53 | the filter's subquery and the membership helper give the same teams |
| BoardVisibility.VisibleIs | packages/board-schema/src/policies.ts:91-168 | the SELECT policy of each table comes to its deciding expression or the Admin claim |
| BoardRowSecurity.PoliciesDoNotRecurse | packages/board-schema/src/policies.ts:19-24 | no policy reads its own table under its own policies, however many tables on |
| BoardRowSecurity.SelectedIs | packages/board-schema/src/policies.ts:158 | a policy's sub-select reads exactly the rows its table's policies show and its condition keeps |
| BoardRowSecurity.MemberTeamIdsAre | infra/board-drizzle/20260801013539_board_prereqs/migration.sql:19-27 | the membership helper returns exactly the caller's teams, row-level security bypassed |
| BoardDatabase.EqualsAny | packages/board-schema/src/policies.ts:66-68 | `= ANY` over an array is true exactly when the value is not NULL and is among its elements |
| BoardDatabase.Kleene | packages/contracts/src/predicate.ts:60-87 | conjunction, disjunction and negation are those of the order false, unknown, true |
| ReadPredicate.InSetIsAny | packages/contracts/src/predicate.ts:60-87 | membership in a subquery's set is, in all three values, the comparison with each of its elements |
| ReadPredicate.ProjectedIs | packages/contracts/src/predicate.ts:60-87 | a subquery's set is exactly the projections of the rows its condition holds on |
| PropertyFixes.ApplyPropertyFixes | scripts/codemods/pgwasm-rename.ts:341-371 | the in-place right-to-left edits come to one substitution whose every decision is made on the original text, whatever the order and repetitions of the diagnostics: unit by unit, each whole word named is renamed in place where it is a member access or a key and keeps its local name otherwise, and all else is kept; changes are the distinct fixable places, and changes plus skips the diagnostics |
| PropertyFixes.FixAt | scripts/codemods/pgwasm-rename.ts:355-367 | a position is edited exactly where it holds the whole word; behind a `.`, or before a `:`, `?` or `(`, white space apart, it becomes `pgwasm`, and `pgwasm: pglite` elsewhere |
| PropertyFixes.SubstitutedIsRewritten | scripts/codemods/pgwasm-rename.ts:355-367 | a line comes out with each named whole word replaced where it stands, shifted by eight units for each shorthand before it, and every other unit kept |
| PropertyFixes.LinesHoldNoBreak | scripts/codemods/pgwasm-rename.ts:345 | the lines hold no line break |
| PropertyFixes.ApplyOne | scripts/codemods/pgwasm-rename.ts:352-368 | one diagnostic overwrites its line or is skipped, as the patterns decide |
| PropertyFixes.EditIsSubstitution | scripts/codemods/pgwasm-rename.ts:356-367 | an edit made on the line as edited so far is one more position of the substitution |
| PropertyFixes.DecidesAsBefore | scripts/codemods/pgwasm-rename.ts:361-366 | with everything to the right edited, a position is judged and replaced as on the original text; an edited one no longer holds the property |
| PropertyFixes.FixableApart | scripts/codemods/pgwasm-rename.ts:356-364 | two edits never touch |
| PropertyFixes.SubstitutedLeads | scripts/codemods/pgwasm-rename.ts:365-366 | edits leave the first unit of what follows, and its first visible one, as they were |
| PropertyFixes.EditsOnce | scripts/codemods/pgwasm-rename.ts:356-359 | a place is edited the first time it is named and never again |
| PropertyFixes.JoinSplit | scripts/codemods/pgwasm-rename.ts:345-370 | a text without edits comes back as it was |
| PropertyFixes.NothingToFix | scripts/codemods/pgwasm-rename.ts:352-369 | no diagnostics, no edits |
| LazyGuardExact.ScanIsExact | packages/client/src/lazy-guard.ts:133-142 | on any statement of quoted identifiers with single-space `as`, the scan reports a token exactly when its reference occurs outside alias position and unshadowed by an occurrence in it |
| LazyGuardExact.NotShadowed | packages/client/src/lazy-guard.ts:133-142 | only a relation named as its schema can be shadowed; for every other the scan is exact |
| LazyGuardExact.NotShadowedByAliases | packages/client/src/lazy-guard.ts:106-109 | where what follows `as` has one part or two, an alias or the type of a cast, nothing is shadowed: the scan is exact whatever the relations are called |
| LazyGuardExact.ShadowedReferenceIsMissed | packages/client/src/lazy-guard.ts:136-140 | one of the two conditions is needed on lists of lexemes: a list that meets neither, and that stands for no read, on which the scan is not exact |
| LazyGuardExact.GapIsMisread | packages/client/src/lazy-guard.ts:106-109 | every name that spells what may stand between two identifiers is reported though nothing refers to it; no word starts such a name |
| LazyGuardExact.ReadExactlyUnlessGap | packages/client/src/lazy-guard.ts:106-109 | an unqualified name without quotes is reported on exactly the statements that refer to it, for all statements, if and only if nothing that may stand between two identifiers spells it |
| LazyGuardExact.ScanIsExactWithoutGap | packages/client/src/lazy-guard.ts:133-142 | on one statement, for any reference without quotes: where no gap between two of its identifiers spells the first name, the scan reports exactly the unshadowed occurrences outside alias position |
| LazyGuardExact.MatchIsOccurrence | packages/client/src/lazy-guard.ts:105-110 | there a token's text occurs only where the reference does |
| LazyGuardExact.AliasTest | packages/client/src/lazy-guard.ts:137-139 | the pattern on the sixteen units before a match says exactly whether the word `as` and a space stand there |
| LazyGuard.SqlReferencesToken | packages/client/src/lazy-guard.ts:133-142 | the search loop is that scan |
| LazyGuardBackstop.BuildLazyGuardIndex | packages/client/src/lazy-guard.ts:78-97 | the index holds every key with the tokens it is read under, the lazy ones apart |
| LazyGuardBackstop.TokensForEntry | packages/client/src/lazy-guard.ts:53-75 | a projection is read under its own identity only, any other entry under its table and its view |
| LazyGuardBackstop.RelationsAre | packages/client/src/lazy-guard.ts:53-75 | a projection is read under its own name and no other, any other relation under its table and its view |
| LazyGuardBackstop.FindReferencedKeysInSql | packages/client/src/lazy-guard.ts:111-131 | the lookup finds exactly the keys one of whose tokens the scan finds |
| LazyGuardBackstop.AssertLazyRefsActivated | packages/client/src/lazy-guard.ts:151-159 | what the backstop objects to is what is found and not active |
| LazyGuardBackstop.LookupsAreExact | packages/client/src/lazy-guard.ts:111-131 | both lookups find a key exactly when one of its relations is reported |
| LazyGuardBackstop.BackstopIsExact | packages/client/src/lazy-guard.ts:144-159 | the backstop lets a statement through exactly when every lazy relation it refers to is active |
| StoreOwnershipProtocol.RemovalNeverOverlapsHandles | packages/client/src/store-ownership-lock.ts:10-18 | in every interleaving of owners, deleters, timeouts, releases, API failures and deaths, a removal never overlaps live handles, nor one owner another |
| StoreOwnershipProtocol.UnlockedDeleterOverlaps | packages/client/src/store-ownership-lock.ts:69-70 | without the Web Locks API nothing orders a deleter: from any state with open handles one may remove |
| StoreOwnershipProtocol.UnlockedOwnerOverlaps | packages/client/src/store-ownership-lock.ts:69-70 | nor an owner: during any removal one may open |
| StoreOwnershipProtocol.LockedOwnerIsOverlapped | packages/client/src/store-ownership-lock.ts:69-70 | a run from the start in which an owner that holds the lock has its store removed by a deleter without the API |
| StoreOwnershipProtocol.LockedDeleterIsOverlapped | packages/client/src/store-ownership-lock.ts:69-70 | a run in which a deleter that holds the lock removes a store that an owner without the API has open: both conditions are needed |
| StoreOwnershipProtocol.SettlesAtMostOnce | packages/client/src/store-ownership-lock.ts:72-95 | an acquire settles at most once, and the settlement stands |
| StoreOwnershipProtocol.UnsettledTimesOut | packages/client/src/store-ownership-lock.ts:73-93 | one that has not settled has its timer running or its abort under way, and the abort settles it as timed out, whoever holds the lock |
| StoreOwnershipProtocol.TimedOutNeverRuns | packages/client/src/opfs-effects.ts:180-202 | a waiter that timed out opens nothing and removes nothing from then on |
| StoreOwnershipProtocol.HolderGivesWay | packages/client/src/store-ownership-lock.ts:14-16 | a release and a death both free the lock |
| StoreOwnershipProtocol.StepKeepsInv | packages/client/src/store-ownership-lock.ts:68-109 | every step keeps the lock's invariant |
| StoreOwnership.StoreAcquire.Release | packages/client/src/store-ownership-lock.ts:82-87 | releasing twice hands the lock back once |
| StoreOwnership.StoreAcquire.OnGrant | packages/client/src/store-ownership-lock.ts:78-81 | a grant stops the timer and resolves |
| StoreOwnership.StoreAcquire.OnTimer | packages/client/src/store-ownership-lock.ts:74-75 | the timer aborts |
| StoreOwnership.StoreAcquire.OnRejected | packages/client/src/store-ownership-lock.ts:90-94 | a rejected request rejects only where nothing was granted, as a timeout if it was aborted |
| Artefacts.Disk.EnsureArtefacts | scripts/pgwasm-artefacts.ts:295-318 | after the verify phase no pinned name holds wrong bytes, whatever failed since; on success every package holds its pins and, besides the cache, all else is as it was but for the `.part` names of what was stale; with nothing stale nothing is touched or downloaded |
| Artefacts.DirectoryAfter | scripts/pgwasm-artefacts.ts:295-318 | what success leaves in a package's directory: its pins and all that was there under other names, less the `.part` names of the stale files; so it holds its pins alone exactly when it held nothing else, those names aside |
| Artefacts.LeftoverStays | scripts/pgwasm-artefacts.ts:295-318 | where that fails: a `.part` left beside a good file stays |
| Artefacts.Disk.AssertArtefactsVerified | scripts/pgwasm-artefacts.ts:172-190 | the check alone passes exactly where every package holds its pins, and leaves nothing wrong behind |
| Artefacts.Disk.VerifyAndDiscard | scripts/pgwasm-artefacts.ts:157-169 | all packages are gone through before any fetch: nothing wrong is left under a pinned name, and what is found names the stale files |
| Artefacts.Disk.VerifyArtefacts | scripts/pgwasm-artefacts.ts:121-136 | the problems are the pinned files that are missing or wrong, in order |
| Artefacts.Disk.DiscardMismatchedArtefacts | scripts/pgwasm-artefacts.ts:139-143 | what failed its pin is gone, and no good file with it |
| Artefacts.Disk.WriteAtomically | scripts/pgwasm-artefacts.ts:103-112 | a target holds its old bytes or the new ones, whichever step fails, and no `.part` survives unless the clean-up fails |
| Artefacts.Disk.ReadCachedAsset | scripts/pgwasm-artefacts.ts:225-234 | cached bytes are used exactly where they match the pin, unless the read fails |
| Artefacts.Disk.FetchAsset | scripts/pgwasm-artefacts.ts:237-267 | at most three downloads, and bytes only where they match the pin |
| Artefacts.Disk.FetchReleaseAssets | scripts/pgwasm-artefacts.ts:274-288 | fetching makes no good file bad and no clean name wrong, in any package, wherever it fails |
| Artefacts.Disk.Refresh | scripts/pgwasm-artefacts.ts:305-314 | a package that was fetched and re-checked holds its pins, or the run fails |
| Artefacts.WriteImproves | scripts/pgwasm-artefacts.ts:284-286 | bytes that match a pin may be written to its target or its cache entry without harm to any package |
| Artefacts.MatchesOnlyThePinned | scripts/pgwasm-artefacts.ts:114-118 | under a digest that tells files apart, a pin taken from a file is met by its bytes alone |
| RecoveryProtocol.MarkerAndStampsNeverLie | packages/client/src/local-store.ts:151-163 | over every run of boots, claims, settlements, clears, recoveries, reconciliations and crashes, the marker never reads clean while a row is `sending`, and a stamp's schema was executed since the last wipe |
| RecoveryProtocol.ClaimsAreMarked | packages/client/src/mutation.ts:577-583 | a claim takes effect only under a marker that says so, callers racing the clear included |
| RecoveryProtocol.NoRebuildWhileOwed | packages/client/src/local-store.ts:281-305 | when a rebuild begins every row of the registry's journals is acked, conflicted or rejected; what else is owed lies in journals the registry no longer writes, and stays |
| RecoveryProtocol.UnansweredRowsStay | packages/client/src/local-store.ts:253-257 | no step drops a row the server has yet to answer |
| JournalHistory.AnsweredRowsWereSent | packages/client/src/mutation.ts:577-636 | over every run: a row that is acked, conflicted or rejected was claimed, was in flight from then on, and was moved to that status by an answer; nothing else puts it there |
| JournalHistory.RowsLeaveAnswered | packages/client/src/local-store.ts:281-305 | a row goes only once it is answered, or quarantined and discarded |
| JournalHistory.BootLiftsOnly | packages/client/src/mutation.ts:1439-1491 | each step of a boot leaves every row that stays as it was, or takes it from `sending` to `pending` |
| JournalHistory.RowAfterStep | packages/client/src/mutation.ts:622-636 | what any step makes of a row that stays: only a claim, a move and a boot's recovery touch it |
| JournalHistory.HistoryExactly | packages/client/src/mutation-state.ts:45-55 | from its enqueue on a row's statuses follow the table of transitions exactly when no claim takes it while it is neither `pending` nor in flight |
| JournalHistory.FailedRowIsClaimed | packages/client/src/mutation.ts:2508-2513 | a run in which that fails: a row that has failed is claimed as it is |
| RecoveryProtocol.BootIsCurrentOrDeferred | packages/client/src/local-store.ts:258-278 | a boot that has reconciled stands under its own registry's stamps, unless its journals owe something and the rebuild is put off |
| RecoveryProtocol.BootLeavesNothingSending | packages/client/src/mutation.ts:1439-1491 | when a boot lets writes through, nothing is left `sending` from before |
| RecoveryProtocol.StepKeepsInv | packages/client/src/mutation.ts:541-620 | every step of boots, senders, the statement queue and crashes keeps the invariant |
| LocalStore.LocalStoreClient.ReadMutationRecoveryRequired | packages/client/src/local-store.ts:174-197 | anything but the two written values fails closed, and a clean reading is true |
| LocalStore.LocalStoreClient.WriteMutationRecoveryRequired | packages/client/src/local-store.ts:204-210 | setting it is always safe, clearing it only with nothing `sending` |
| LocalStore.LocalStoreClient.ClearMutationRecoveryMarkerIfSettled | packages/client/src/local-store.ts:230-251 | it clears exactly where a marker exists and the registry's journals show no `sending` row, which is safe where those are all there are |
| LocalStore.LocalStoreClient.RebuildReadCacheOrDefer | packages/client/src/local-store.ts:281-318 | with anything owed nothing changes; otherwise the rebuild runs, a crash leaving one of its prefixes |
| LocalStore.LocalStoreClient.ReconcileLocalStoreVersion | packages/client/src/local-store.ts:258-278 | unchanged is left alone, unstamped is stamped, changed is rebuilt or deferred; marker and stamps hold wherever it crashes |
| LocalStore.RecoveryIsSoundExactly | packages/client/src/local-store.ts:213-251 | recovery's clean marker is true exactly when no `sending` row lies in a journal the registry no longer writes |
| LocalStore.DroppedTableHidesSending | packages/client/src/local-store.ts:213-215 | a table dropped from the registry hides its row in flight behind a clean marker |
| LocalStore.RebuildDropsTheOutbox | packages/client/src/schema.ts:1194-1199 | the rebuild drops the Outbox whatever is staged there: events survive it exactly where there were none |
| RecoveryProtocol.EventLeavesExactly | packages/client/src/local-store.ts:306 | a staged event leaves the Outbox exactly by being retired or by a rebuild's wipe, which asks for nothing |
| RecoveryProtocol.EventsAreRetiredOrWiped | packages/client/src/local-store.ts:306 | over every run, an event that is gone was retired or lost to a rebuild at some step between |
| LocalStore.RecoveryRequired | packages/client/src/local-store.ts:188-196 | a marker reads clean exactly when it holds the written value, and absent exactly when it is |
| MutationState.AnswersFollowSending | packages/client/src/mutation-state.ts:45-55 | a row that is acked, conflicted, rejected or failed was claimed from `pending` before |
| MutationState.TerminalEndsHistory | packages/client/src/mutation-state.ts:45-55 | a terminal row stays as it is |
| MutationState.ClassifyFailureStatus | packages/client/src/mutation-state.ts:89-99 | a failure is terminal exactly for a structural client error; every other leads back to `pending` |

## Left out

- HTTP, `fetch`, token acquisition, zod parsing, Drizzle rendering and the pgwasm engine: each statement is one atomic step on mathematical tables.
- Payload validation on append, and event-lane reports: a payload is its JSON text, and reports change no state.
- Floating point and `Math.random`: milliseconds are integers and the jitter is any fraction in [0, 1); overflow of `2 ** n` is not modelled.
- The clock is assumed not to run backwards.
- Shutdown of the Event lane: an aborted request is a failed one, and what is left behind is a crash's.
- Subscriptions during a publish follow JavaScript's Set order; a listener cannot publish, since every publish follows an `await`.
- `onPass` of the drivers is assumed not to throw.
- EventLaneSafety.DrainSignalIsTrue: takes each probe's read and its publish as one step, done before any later statement's answer.
- EventLaneRuntime.EventLane.DrainSlices: the class runs one call at a time; appends and further calls between its statements are in `EventLaneProtocol`, where any step may follow any other.
- EventLaneRuntime.EventLane.Assemble: is given the byte count of a row as a function; `RequestBytesIsExact` is about the exact one.
- Import scanning and module resolution in `analyzeFile`, git itself and the registry file's JSON: dependencies are a function of a file's content, and a content hash tells contents apart.
- ValidateCache.FingerprintIsExact: a digest is modelled by the text it digests, so that hashing is injective is an assumption.
- ValidateCache.SortPaths: sorts by character; JavaScript sorts by UTF-16 unit, which gives another fixed order of the same paths.
- TestSelection.SkippedTestsPass: assumes that a verdict depends only on the closure, the globals and the declared inputs; each file of a shard is run on one of the trees there were meanwhile, so a file that reads half of an edit is not modelled.
- Command-line handling, narrowing flags and reports of the test scripts.
- Predicate leaves the board does not use (`neq`, `lt`, `lte`, `gt`, `like`), the wire-value range check, and write policies beyond their place in the builders.
- Claims that are not well typed, an empty `sub` reaching the database's cast among them.
- The rest of the codemod: its regular expressions over whole texts.
- PropertyFixes.ApplyPropertyFixes: lines and columns are natural numbers, as the log parser yields; a negative column would count from a line's end.
- EventLaneStarvation.PassEndsOnItsOwnDeferrals: is about a lane without per-stream caps, all of whose pending rows are due.
- LazyGuardExact.ScanIsExact: statements put at most one space between lexemes and set identifiers off from words that follow them, as compiled SQL does.
- StoreOwnershipProtocol.UnsettledTimesOut: says that the timer and the abort settle the wait, not when the browser runs them.
- StoreOwnershipProtocol.RemovalNeverOverlapsHandles: assumes that a context's death ends its handles, its lock and a removal it had begun at one moment; the directory handle an owner looks up before it takes the lock is not modelled.
- Directory walks, sentinels and observation in the OPFS effects.
- Artefacts.Disk.EnsureArtefacts: assumes that no two packages disagree about one file and that neither the cache nor a `.part` name is a pinned file, and that nothing else writes there meanwhile.
- Restore boots, `desync`, lazy activations and caller-owned stores.
- RecoveryProtocol.MarkerAndStampsNeverLie: a fingerprint is modelled by what it stands for, so that fingerprints tell registries apart is an assumption; a journal's statements are atomic.
- Retry policy and attempt caps of mutations: but for claims, which take any row, rows move along the transition table by arbitrary steps.
- JournalHistory.AnsweredRowsWereSent: an answer is applied to a row that is in flight; that a second answer to a row already answered overwrites the first, since the UPDATE asks for no status, is not modelled.
