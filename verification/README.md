# Trading engine: verified models

Dafny models of the stateful core of the trading engine under `engine/src`, with proofs of what that core keeps over
whole runs. One module follows one source file or one protocol that spans several:

| module | follows |
|---|---|
| `BondingCurveMath`, `CurveTracking` | exact constant-product arithmetic and the curve state kept per mint |
| `BoundedStructures`, `VolumeModel`, `VolumeEngine`, `VolumeSafety`, `VolumeCreation`, `VolumeDedupe`, `VolumeCurve`, `VolumeCalls` | the one-minute volume engine: its containers, its transitions as functions on values, the class that makes them in place, what every run keeps of volumes, when a creation is safe, what runs keep of identities and of curves, and calls on the class as runs |
| `EndpointGate`, `PriorityAdmission`, `ProviderStack`, `ProviderRequests`, `RequestTiming`, `AdmissionTiming` | request admission: one endpoint's slots and clock, the priority gate, their composition, one request's life, its time budget across both, and the time it waits for admission |
| `EvaluationScheduler` | the global bound on evaluations |
| `EntryRisk`, `EvaluationGuard`, `EntryProtocol` | the entry decision, its leases and reservations, and the entry commit under every interleaving |
| `TradeLedger`, `PositionMonitor`, `PositionRecovery`, `ExitProtocol` | the ledger as an abstract table, sells, restarts and the money booked |
| `Replay` | the merge of recorded snapshots and the fold over them |
| `Base58`, `Token2022`, `ProgramLogs` | two decoders and the invoke-stack attribution of logs |
| `Prelude`, `OrderedMaps` | optional values and insertion-ordered maps |

The same shape recurs. What a file computes is a set of functions on values. Where the source changes fields in place,
a class has those fields and each method is proved to make the transition of its function. Where the source awaits, each
stretch between two awaits is one step, a run is a sequence of steps that are enabled, and the main results hold of the
state after any run. Steps that the environment takes (an event arriving, a timer firing, an answer, a restart) carry
their data as parameters, so a result covers every environment that meets the stated conditions.

## Readings

- Volume engine. A run interleaves stream-health signals, arriving events and losses. Losses happen only while coverage
  is broken, each with a second no later than the next accepted event. A decoder that throws, or anything that throws
  while a notification's events are taken, is a notification that breaks off after some of them.
- The first creation a mint's state sees makes the mint count as observed since then in the current epoch, also while
  the stream is disconnected, after trades of the mint were lost or their buckets dropped, and within a truncated
  notification. A reconnection that finds coverage already broken does not start a new epoch. Trades missed can then lie
  inside an answered window. The code is modelled as it is; the exact condition on a creation is proved with both
  failing runs, for options whose tolerances are not negative and under which a mint may idle for at least the retention
  horizon and the settle margin together.
- A mint's tracked curve. A late trade of the same slot is recognised by ending in the state the tracked trade starts
  from. A chain that returns to an earlier state can therefore be tracked wrong when neighbours arrive exchanged. Which
  exchanges are tracked right is stated exactly: only returns within two or three trades matter.
- The header of `boundedStructures.ts` says that eviction can only make a very old duplicate look new, because older
  events are refused first. That holds for pruning by the horizon, not for eviction by the hard cap, which can forget an
  identity still inside the horizon. When a redelivery is counted again is stated exactly, for every cap; counting is
  exact while the cap evicts nothing.
- Endpoint gate. A woken waiter is counted as active only when its await resumes, so a newcomer can take the slot
  promised to it, and that is exactly when an arrival makes the bound of the gate alone fail; behind the admission gate
  of the same size it holds. A slot wait ends before the deadline and a retry sleep strictly before it; a queue wait
  begins only before the deadline and its timer is set for it. Timers never fire early and the clock never runs back;
  where a time budget is stated they fire at most a given time late. Retry waits follow the Retry-After field of section
  10.2.3 of RFC 9110 on status 429 (section 4 of RFC 6585) and on server errors.
- Time at the admission gate. Each ticket is held by a request begun when the ticket was handed out; time passes only as
  far as each of them may still be unsettled, at whatever endpoints and with whatever happening to it.
- One request. What other requests do to the endpoints between two awaits is arbitrary. All reads of the clock within
  one stretch give the same time.
- Entry. Amounts are whole lamports. Losses in a row and the last exit time enter a decision as parameters: they can
  only refuse. A restart empties the leases and the reservations and keeps the ledger.
- Exit. A poll works on the position it was started with. The test of `closing` comes before the awaits, so two polls of
  one trade can overlap and sell twice; results are stated for runs where they do not. Flags for unconfirmed sells live
  in memory only, so the promise about repeated sells is per process; across restarts its exact condition is given. A
  transaction that throws has rolled back.
- Replay. Mints are numbered in the order in which the sort compares their names. Scores, edges, exit conditions and
  fills are arbitrary functions of the snapshot and of the position's own history.
- Log lines are texts, read with the two regular expressions and prefixes of the source. A message such as
  `invoke [1]`, printed behind `Program log: `, matches the expression for invocations and is taken for one; attribution
  is stated for logs without such messages, which is the exact condition.

## Model

| member | source | states |
|---|---|---|
| `VolumeSafety.AnswersTotalTheCountedLog` | `engine/src/volume/pumpfunVolumeEngine.ts:344-389` | Over every run in which each creation that makes its mint count as created in the current epoch finds what was counted of the mint still held as far back as windows ask, a non-null current or previous volume is the sum over all trades of the mint ever counted with a second in that window, whatever is lost, whatever the arrival order, pruning and bucket caps. |
| `VolumeCalls.VolumesAfterCallsTotalTheCountedLog` | `engine/src/volume/pumpfunVolumeEngine.ts:626-658` | The same for the engine as it is called: after any sequence of signals, notifications, replayed events and queries on a new engine, both windows of an answer total the trades counted so far. |
| `VolumeCalls.CallsAreARun` | `engine/src/volume/pumpfunVolumeEngine.ts:293-330` | Every sequence of calls on the engine ends in the state of a run of signals and events; a notification is its damage, then its lifecycles, then its trades. |
| `VolumeCalls.Perform` | `engine/src/volume/pumpfunVolumeEngine.ts:237-330` | Each call on the object makes the transition of that call on its value. |
| `VolumeSafety.AnswersTotalWhatHappened` | `engine/src/volume/pumpfunVolumeEngine.ts:237-277` | Coverage soundness: if losses happen only while coverage is broken and those creations are also accepted while connected and after no loss of the mint that windows can ask for, no lost trade lies in an answered window, so the answer totals everything that happened in it. |
| `VolumeCreation.CreationSafeExactlyWhenWatchedAndHeld` | `engine/src/volume/pumpfunVolumeEngine.ts:391-412` | After a creation is accepted, answers for its mint are whole in every continuation whose trades of the mint are no older than its creation, if and only if the stream was connected when it was accepted, nothing of the mint had been lost as far back as windows ask, and the buckets still held all that was counted of it there. |
| `VolumeCreation.LossBehindAnUnconnectedCreation` | `engine/src/volume/pumpfunVolumeEngine.ts:255-263` | The failing run while disconnected: a creation, the loss of a trade no older than the creation, a reconnection that does not start a new epoch, one more trade once the loss is old enough to be asked for; the answered window misses the loss. |
| `VolumeCreation.GapBehindAConnectedCreation` | `engine/src/volume/pumpfunVolumeEngine.ts:391-412` | The failing run while connected: a creation behind a loss or a dropped bucket of its mint that windows can still ask for; the next trade has a window answered that misses it. |
| `VolumeSafety.CoverageNeverMovesBack` | `engine/src/volume/pumpfunVolumeEngine.ts:344-357` | Between any two points of a run the start of coverage and the epoch never go backwards. |
| `VolumeDedupe.RedeliveryCountsExactlyWhenEvicted` | `engine/src/volume/boundedStructures.ts:19-29` | At any point of any run, for any cap: a trade counted before that comes again with its second is counted again exactly when its identity is no longer remembered, its second is inside the retention horizon, its mint is open or not held and it is not early; and then the hard cap had evicted it. |
| `VolumeDedupe.CountedOnceExactlyWhenNoneRecounts` | `engine/src/volume/pumpfunVolumeEngine.ts:359-389` | Over every run whose redeliveries keep their seconds, each identity is counted at most once exactly when no step meets that condition. |
| `VolumeDedupe.EachIdentityCountsOnce` | `engine/src/volume/pumpfunVolumeEngine.ts:359-389` | So while nothing was evicted by the cap, a trade identity with a fixed second is counted at most once for any number and order of redeliveries. |
| `VolumeDedupe.EvictedIdentityCountsTwice` | `engine/src/volume/boundedStructures.ts:19-29` | The condition is met for every cap: after as many other trades of the same second as the cap holds, the first trade comes again and is counted twice. |
| `VolumeSafety.StepKeeps` | `engine/src/volume/pumpfunVolumeEngine.ts:300-412` | Every admissible signal, event or loss keeps the invariant behind the answers. |
| `VolumeEngine.PumpfunVolumeEngine.MarkStreamStarted` | `engine/src/volume/pumpfunVolumeEngine.ts:237-248` | The fields after a stream start, as the specified transition. |
| `VolumeEngine.PumpfunVolumeEngine.MarkDisconnected` | `engine/src/volume/pumpfunVolumeEngine.ts:249-254` | The fields after a disconnection, as the specified transition. |
| `VolumeEngine.PumpfunVolumeEngine.MarkReconnected` | `engine/src/volume/pumpfunVolumeEngine.ts:255-263` | The fields after a reconnection; the epoch moves only if coverage was still held. |
| `VolumeEngine.PumpfunVolumeEngine.CheckLiveness` | `engine/src/volume/pumpfunVolumeEngine.ts:269-274` | Silence past the limit breaks coverage; nothing else does. |
| `VolumeEngine.PumpfunVolumeEngine.BreakCoverage` | `engine/src/volume/pumpfunVolumeEngine.ts:596-605` | Coverage is dropped and the epoch moves. |
| `VolumeEngine.PumpfunVolumeEngine.OnNotification` | `engine/src/volume/pumpfunVolumeEngine.ts:300-330` | Damage is noted before the same notification's events are accepted, lifecycles before trades; an exception at any point breaks coverage after the events taken so far. |
| `VolumeEngine.PumpfunVolumeEngine.ObserveEventTime` | `engine/src/volume/pumpfunVolumeEngine.ts:332-342` | Events too far ahead of their arrival or older than the retention horizon are refused. |
| `VolumeEngine.PumpfunVolumeEngine.AdvanceWatermark` | `engine/src/volume/pumpfunVolumeEngine.ts:344-357` | Watermark, coverage restored past it, and pruning when it moves. |
| `VolumeEngine.PumpfunVolumeEngine.PruneIfDue` | `engine/src/volume/pumpfunVolumeEngine.ts:582-594` | Once a second: buckets and identities behind the horizon go, idle mints once a minute. |
| `VolumeEngine.PumpfunVolumeEngine.TouchMint` | `engine/src/volume/pumpfunVolumeEngine.ts:415-440` | The mint's state is refreshed or created, and the oldest go past the cap. |
| `VolumeEngine.PumpfunVolumeEngine.AcceptTrade` | `engine/src/volume/pumpfunVolumeEngine.ts:359-389` | A trade is refused, remembered, restricts the mint or is counted, in that order of checks. |
| `VolumeEngine.PumpfunVolumeEngine.AcceptLifecycle` | `engine/src/volume/pumpfunVolumeEngine.ts:391-412` | A creation or graduation is refused or changes the mint's state. |
| `VolumeEngine.PumpfunVolumeEngine.GetOneMinuteVolume` | `engine/src/volume/pumpfunVolumeEngine.ts:629-683` | The null-unless-proven ladder over coverage, status and windows. |
| `BoundedStructures.BoundedIdentitySet.Add` | `engine/src/volume/boundedStructures.ts:19-29` | A new key goes last and pushes the oldest arrivals out past the cap, counted; a present key changes nothing. |
| `BoundedStructures.BoundedIdentitySet.PruneOlderThan` | `engine/src/volume/boundedStructures.ts:36-41` | Only old entries at the head go. |
| `BoundedStructures.PruneHeadDropsOld` | `engine/src/volume/boundedStructures.ts:36-41` | What pruning removes is a prefix, all of it older than the horizon. |
| `BoundedStructures.SecondBucketStore.Add` | `engine/src/volume/boundedStructures.ts:72-90` | One trade is added to its mint's second and nowhere else. |
| `BoundedStructures.SecondBucketStore.Sum` | `engine/src/volume/boundedStructures.ts:92-109` | The total of the buckets of the window. |
| `BoundedStructures.SecondBucketStore.PruneOlderThan` | `engine/src/volume/boundedStructures.ts:116-130` | Exactly the older buckets go, and their number is returned. |
| `BoundedStructures.SecondBucketStore.EnforceCap` | `engine/src/volume/boundedStructures.ts:132-147` | Whole seconds go, oldest first, until the cap is met. |
| `BoundedStructures.CappedDropsOldest` | `engine/src/volume/boundedStructures.ts:132-147` | A bucket survives the cap unchanged and only if its second is later than every dropped one. |
| `VolumeEngine.PumpfunVolumeEngine.ResolveCurve` | `engine/src/volume/pumpfunVolumeEngine.ts:480-511` | The validity ladder of curve answers, in the order of its checks. |
| `VolumeCurve.ServedCurveIsAFreshCountedTrade` | `engine/src/volume/pumpfunVolumeEngine.ts:480-511` | Over every run a curve is served only while the stream is covered, and it is then the state right after a counted trade of the mint: readable, a consistent constant-product step of an ordinary curve, no older than the allowed skew. |
| `VolumeCurve.CurveIsSinceExactlyWhenReplaced` | `engine/src/volume/pumpfunVolumeEngine.ts:442-467` | From any point of a run on, in particular since the last break: the curve tracked in the end is the state after a trade counted since exactly when some trade counted since replaced what it found; otherwise it is the state tracked at that point. |
| `VolumeCurve.LateTradeProvesTheEarlierCurve` | `engine/src/volume/pumpfunVolumeEngine.ts:442-467` | So the evidence can be older than the curve: a late trade of an earlier slot proves the mint in the current epoch without replacing the curve tracked before. |
| `BondingCurveMath.BuyPaysTheMost` | `engine/src/volume/bondingCurveMath.ts:57-60` | A buy pays the largest number of tokens that does not lower the product of the virtual reserves, and leaves some. |
| `BondingCurveMath.SellPaysTheMost` | `engine/src/volume/bondingCurveMath.ts:125-128` | A sell pays the most SOL that does not lower the product, and leaves some. |
| `BondingCurveMath.SplittingABuyNeverPaysMore` | `engine/src/volume/bondingCurveMath.ts:57-60` | Two buys in a row never yield more tokens than one of the same total. |
| `BondingCurveMath.BuyThenSellReturnsAtMostNet` | `engine/src/volume/bondingCurveMath.ts:125-128` | Selling at most what a buy paid returns at most what reached the curve. |
| `BondingCurveMath.RoundTripNeverProfits` | `engine/src/volume/bondingCurveMath.ts:51-60` | With both legs' fees a round trip returns at most what was paid. |
| `BondingCurveMath.EntryNetFitsInTotal` | `engine/src/volume/bondingCurveMath.ts:51-55` | The net amount is the largest whose fees fit in the total. |
| `BondingCurveMath.SellNetAtMostGross` | `engine/src/volume/bondingCurveMath.ts:155-158` | The fee of a sell is rounded up. |
| `BondingCurveMath.ProductNeverFalls` | `engine/src/volume/bondingCurveMath.ts:57-60` | Over any run of buys and sells the product of the reserves never falls and neither is drained. |
| `BondingCurveMath.NoProfitableCycle` | `engine/src/volume/bondingCurveMath.ts:125-128` | No run of trades that gives its tokens back takes SOL out of the curve. |
| `BondingCurveMath.LinksExactlyWhenPostFollows` | `engine/src/volume/bondingCurveMath.ts:114-122` | An event links to a state exactly when its post state is that state moved by its amounts. |
| `BondingCurveMath.StepCheckAcceptsBuys` | `engine/src/volume/bondingCurveMath.ts:102-112` | The step check accepts every floor buy no larger than its reserve on a curve of at least 2,000,000 tokens. |
| `BondingCurveMath.StepCheckAcceptsSells` | `engine/src/volume/bondingCurveMath.ts:102-112` | The same for floor sells and 2,000,000 lamports. |
| `BondingCurveMath.BuyImpactBounds` | `engine/src/volume/bondingCurveMath.ts:62-81` | Two-sided bounds of the scaled buy impact. |
| `BondingCurveMath.SellImpactBounds` | `engine/src/volume/bondingCurveMath.ts:130-152` | Two-sided bounds of the scaled sell impact. |
| `CurveTracking.BlockEndsRightExactlyWhen` | `engine/src/volume/pumpfunVolumeEngine.ts:442-467` | Two neighbours of one slot that arrive exchanged end in the state of the one executed last exactly when the later one does not lead back to the state the earlier one starts from and what was tracked before does not make it look older. |
| `CurveTracking.TrackingIsRightExactlyWhen` | `engine/src/volume/pumpfunVolumeEngine.ts:442-467` | For a chain in one slot with any disjoint neighbours exchanged, whatever was tracked before: every block ends in its own last executed trade if and only if the first block is not mistaken for older trades and no exchanged pair repeats a state of its own start or of the start of the trade before it. |
| `CurveTracking.TrackingToleratesLocalReordering` | `engine/src/volume/pumpfunVolumeEngine.ts:442-467` | So when no state repeats, any arrival order made of disjoint adjacent swaps ends in the state of the last executed trade. |
| `CurveTracking.ReorderedEndsAsExecuted` | `engine/src/volume/pumpfunVolumeEngine.ts:442-467` | So it ends where execution order ends. |
| `CurveTracking.ChainAddsUp` | `engine/src/volume/bondingCurveMath.ts:91-122` | Along linked events the last state is the first moved by the signed sums of the amounts. |
| `CurveTracking.UndonePairIsTrackedWrong` | `engine/src/volume/pumpfunVolumeEngine.ts:736-738` | A pair that fails, whatever was tracked: a buy undone by a sell, arriving exchanged, leaves the buy tracked although the sell was executed last. |
| `EndpointGate.ClockStaysNearNow` | `engine/src/providers/providerGate.ts:576-592` | Before shutdown the rate-limit clock is ahead of now by at most one spacing more than there are callers asleep toward a slot still ahead, each holding a concurrency slot. |
| `EndpointGate.SlotsAreSpacedAndInTime` | `engine/src/providers/providerGate.ts:578-583` | Slots handed out are pairwise at least a spacing apart and lie before their requests' deadlines. |
| `EndpointGate.RefusalsNeverMoveTheClock` | `engine/src/providers/providerGate.ts:581-582` | A step that grants nothing leaves the clock where it was. |
| `EndpointGate.NothingGrantedAfterShutdown` | `engine/src/providers/providerGate.ts:569-584` | After the abort no slot is handed out and no attempt starts. |
| `EndpointGate.NoConcurrencySlotIsLost` | `engine/src/providers/providerGate.ts:553-598` | Somebody waits only while every slot is taken or promised; each wait is resolved once; every release gives back a held slot, so the clamp at zero is never reached. |
| `EndpointGate.BoundedWithoutOvertaking` | `engine/src/providers/providerGate.ts:553-575` | Without a newcomer taking a promised slot the gate keeps its own bound. |
| `EndpointGate.OvertakingBreaksTheBound` | `engine/src/providers/providerGate.ts:553-575` | With one, the bound breaks as soon as the woken waiters resume, if their deadlines allow. |
| `EndpointGate.ArrivalKeepsBoundExactlyWhenNotOvertaking` | `engine/src/providers/providerGate.ts:553-575` | An arrival at a gate within its bound keeps that bound in every continuation without overtaking, if and only if it does not take a slot promised to a woken waiter, their deadlines allowing. |
| `EndpointGate.GateAloneExceedsItsBound` | `engine/src/providers/providerGate.ts:556-575` | For every positive bound, a reachable state of the gate alone with more active attempts than it allows. |
| `EndpointGate.EndpointState.AcquireSlot` | `engine/src/providers/providerGate.ts:553-592` | Entry of acquire: refused, queued, asleep or granted, with the new endpoint state. |
| `EndpointGate.EndpointState.ReserveSlot` | `engine/src/providers/providerGate.ts:577-592` | The spacing section: the clock moves only for a slot before the deadline. |
| `EndpointGate.EndpointState.ResumeWaiter` | `engine/src/providers/providerGate.ts:569-574` | A woken waiter takes its place only when it resumes. |
| `EndpointGate.EndpointState.ExpireWaiter` | `engine/src/providers/providerGate.ts:557-561` | A waiter whose timer fires leaves the line. |
| `EndpointGate.EndpointState.EndSleep` | `engine/src/providers/providerGate.ts:583-591` | After the slot sleep an aborted caller gives its slot back. |
| `EndpointGate.EndpointState.ReleaseSlot` | `engine/src/providers/providerGate.ts:594-598` | A release wakes the first waiter. |
| `EndpointGate.SpacingsAreAProduct` | `engine/src/providers/providerGate.ts:578` | The time n spacings take is n times the spacing. |
| `PriorityAdmission.PriorityAdmissionGate.Acquire` | `engine/src/providers/priorityAdmissionGate.ts:79-95` | Admitted, made to wait in its class, or rejected after shutdown. |
| `PriorityAdmission.PriorityAdmissionGate.Release` | `engine/src/providers/priorityAdmissionGate.ts:98-102` | The ticket goes to the first high waiter, then the first low one, counted at once. |
| `PriorityAdmission.PriorityAdmissionGate.Shutdown` | `engine/src/providers/priorityAdmissionGate.ts:111-118` | Every waiter is rejected once and tickets held are untouched. |
| `PriorityAdmission.AdmissionIsBoundedAndFair` | `engine/src/providers/priorityAdmissionGate.ts:79-118` | Tickets held equal callers inside and never exceed the bound; nobody waits while one is free; each class is served in order. |
| `PriorityAdmission.HighWaiterIsPromotedInTurn` | `engine/src/providers/priorityAdmissionGate.ts:97-102` | A high waiter at place k is promoted by the (k+1)-th return, whatever low callers do. |
| `AdmissionTiming.HighWaiterIsAdmittedInTime` | `engine/src/providers/priorityAdmissionGate.ts:69-102` | When every ticket is held by a request that is settled within its own budget, a high waiter at place k has been promoted, in its turn, once more than k + 1 budgets have passed without a shutdown. |
| `ProviderStack.ComposedStackKeepsTheBound` | `engine/src/providers/providerStack.ts:85-91` | Behind an admission gate of size maxConcurrent every endpoint has at most maxConcurrent active, nobody ever waits in its line, and its clock stays within maxConcurrent + 1 spacings of now until shutdown. |
| `ProviderStack.ArriverFindsRoom` | `engine/src/providers/providerStack.ts:139-146` | An admitted request that holds no slot finds one free. |
| `ProviderRequests.RequestSettlesInBoundedAttempts` | `engine/src/providers/providerGate.ts:260-303` | Whatever endpoints answer and other requests do, a request spends at most endpoints * (maxRetries + 1) attempts and settles within three awaits for each. |
| `RequestTiming.AcquireEndsByDeadline` | `engine/src/providers/providerGate.ts:553-592` | However others queue, sleep, settle and shut down: while an acquire is pending its deadline is not past, a slot is granted before it and a refusal comes at the latest at it or at once, each give or take the lateness of timers. |
| `RequestTiming.SettlesWithinItsBudget` | `engine/src/providers/providerGate.ts:242-506` | From its beginning to its settlement, acquires at the endpoints included: when timers fire at most `late` ms late, a request has settled by its deadline plus the grace of one abandoned attempt plus twice that lateness, within the bounds on attempts and awaits; no await ends later. |
| `ProviderRequests.EveryBlameIsFair` | `engine/src/providers/providerGate.ts:278-301` | Over every run: consecutiveFailures is the number of blames since the last success, and each blame rests on at least one attempt, all of them made at that endpoint in that turn, of which any that timed out had the full window. |
| `ProviderRequests.EvidenceIsFair` | `engine/src/providers/providerGate.ts:324-337` | One concluded turn: not_attempted means no attempt was made there; local_deadline means our deadline cut the window; a timeout held against an endpoint had the full window. |
| `ProviderRequests.OnlyEvidenceMovesTheCircuit` | `engine/src/providers/providerGate.ts:278-301` | Only a success or a blamed failure moves consecutiveFailures, and the circuit opens only at the threshold. |
| `ProviderRequests.EveryRunIsAccountedFor` | `engine/src/providers/providerGate.ts:242-319` | Over every run of concurrent requests: logicalRequests = answered + logicalFailures + inFlight, and consecutiveFailures is the number of blames since the last success. |
| `ProviderRequests.OneMoment` | `engine/src/providers/providerGate.ts:321-506` | What one settled await does to a request's endpoint, attempt number, attempts and wait. |
| `ProviderRequests.ProviderGate.BeginRequest` | `engine/src/providers/providerGate.ts:242-256` | Counting a new request and refusing it after shutdown. |
| `ProviderRequests.ProviderGate.ExamineFrom` | `engine/src/providers/providerGate.ts:260-272` | The loop that skips endpoints in cooldown or not serving the method. |
| `ProviderRequests.ProviderGate.ContinueTurn` | `engine/src/providers/providerGate.ts:328-503` | The part of tryEndpoint after an await: how an attempt is judged and what is retried. |
| `ProviderRequests.ProviderGate.SettleTurn` | `engine/src/providers/providerGate.ts:278-302` | What a concluded turn at an endpoint does to its health and to the request. |
| `EvaluationScheduler.BoundedAndWorkConserving` | `engine/src/orchestrator/evaluationScheduler.ts:85-126` | Active dispatches never exceed the bound and are tallied by mint; while running, something waits only if every slot is taken. |
| `EvaluationScheduler.DispatchedInTurn` | `engine/src/orchestrator/evaluationScheduler.ts:119-126` | A mint waiting at place k is dispatched by the (k+1)-th completion with its latest closure, unless forgotten or stopped. |
| `EvaluationScheduler.EvaluationScheduler.Tick` | `engine/src/orchestrator/evaluationScheduler.ts:85-92` | A tick runs at once, replaces the mint's waiting one in place, or is dropped after stop. |
| `EvaluationScheduler.EvaluationScheduler.Finished` | `engine/src/orchestrator/evaluationScheduler.ts:110-116` | A completion frees its slot, untallies its mint and promotes. |
| `EvaluationScheduler.EvaluationScheduler.Promote` | `engine/src/orchestrator/evaluationScheduler.ts:119-126` | The mint waiting longest takes a free slot. |
| `EntryRisk.CanOpenNewPosition` | `engine/src/risk/exposureManager.ts:4-16` | Allowed exactly when there is room by number and by total size; the reason says which. |
| `EntryRisk.CanReenter` | `engine/src/risk/reentryTracker.ts:15-33` | Allowed exactly when re-entries are left and, after a first trade, losses and cooldown permit. |
| `EntryRisk.EvaluateEntryRisk` | `engine/src/risk/riskEngine.ts:14-53` | Allowed exactly when no check refuses; every refusing check leaves its reason; the size is the fixed one. |
| `EvaluationGuard.EvaluationGuard.Acquire` | `engine/src/orchestrator/evaluationGuard.ts:46-61` | A live lease refuses the tick; a stuck one is replaced by a new id. |
| `EvaluationGuard.EvaluationGuard.ReleaseLease` | `engine/src/orchestrator/evaluationGuard.ts:69-71` | Only the live holder frees its mint. |
| `EvaluationGuard.EntryReservations.Reserve` | `engine/src/orchestrator/evaluationGuard.ts:98-102` | One reservation a mint, appended in order. |
| `EvaluationGuard.StaleStaysStale` | `engine/src/orchestrator/evaluationGuard.ts:63-71` | A lease that stopped being current never becomes current again. |
| `EntryProtocol.EntryLoop.Decide` | `engine/src/orchestrator/loop.ts:582-626` | The synchronous commit section reserves exactly when risk allows, the lease is live and the mint has nothing open or in flight. |
| `EntryProtocol.EntryLoop.FinishBuy` | `engine/src/orchestrator/loop.ts:636-730` | A filled buy is recorded with the mint's trade count as its re-entry index; the reservation is released in every case. |
| `EntryProtocol.EntriesKeepTheHardLimits` | `engine/src/orchestrator/loop.ts:582-731` | Under every interleaving of ticks, takeovers, decisions, buys, closes and restarts: open trades plus reservations stay within the number and size limits, one per mint, and re-entry indices count 0, 1, 2, ... up to the limit. |
| `EntryProtocol.TradesPerMint` | `engine/src/risk/reentryTracker.ts:15-33` | A mint never has more than maxReentriesPerToken + 1 trades. |
| `EntryProtocol.SupersededNeverEnters` | `engine/src/orchestrator/loop.ts:612-614` | An evaluation whose lease was taken over can commit nothing, however late it resumes. |
| `EntryProtocol.LatchedDayAllowsNoEntry` | `engine/src/risk/dailyLossCircuitBreaker.ts:14-27` | Once a day's breaker is latched no step clears it, restarts and later profits included, and no decision of that day commits an entry. |
| `EntryProtocol.DecisionLatches` | `engine/src/orchestrator/loop.ts:604-606` | After a decision the day is latched exactly when it was, or its losses had reached the limit. |
| `TradeLedger.TradeLedger.RunExitTransaction` | `engine/src/ledger/tradeLedger.ts:279-293` | All of an exit's writes or, when a statement throws, none. |
| `TradeLedger.TradeLedger.RecordExitRow` | `engine/src/ledger/tradeLedger.ts:180-209` | Every row of the id gets the exit, whatever its status. |
| `TradeLedger.TradeLedger.MarkReconciliationNeeded` | `engine/src/ledger/tradeLedger.ts:260-264` | The first reason recorded is kept. |
| `PositionMonitor.PositionMonitor.SellSettled` | `engine/src/orchestrator/positionMonitor.ts:199-299` | After a settled sell: booked and forgotten, deferred, or flagged with the position kept. |
| `PositionMonitor.PositionMonitor.HandleUnexecutedSell` | `engine/src/orchestrator/positionMonitor.ts:310-331` | Retried only while retryable and first deferred less than the limit ago; otherwise flagged. |
| `PositionMonitor.DeferralIsBounded` | `engine/src/orchestrator/positionMonitor.ts:310-331` | As long as a trade is not flagged, every unexecuted sell of it was retryable and came less than the limit after the first; otherwise it is flagged and the emergency stop is triggered. |
| `ExitProtocol.MoneyIsBookedOnceAndNothingSoldTwice` | `engine/src/orchestrator/positionMonitor.ts:188-331` | Over runs whose polls of one trade do not overlap: each day's realized PnL is the PnL of the trades closed that day, and no sell is issued in a process for a trade after one was reported executed or unknown. |
| `ExitProtocol.BookingAgreesExactlyWhenOpen` | `engine/src/ledger/tradeLedger.ts:326-332` | One booking keeps the days equal to the trades exactly when the trade was open or its earlier exit realized nothing. |
| `ExitProtocol.PollIsSafeExactlyWhenAlone` | `engine/src/orchestrator/positionMonitor.ts:118-129` | Starting a poll keeps both promises, in every continuation without a further overlap, if and only if no other poll of that trade is in progress. |
| `ExitProtocol.OverlappingPollsSellTwice` | `engine/src/orchestrator/positionMonitor.ts:118-129` | Two overlapping polls of any open position can sell and book it twice. |
| `ExitProtocol.SaleIsFinalExactlyWhenRecorded` | `engine/src/orchestrator/positionMonitor.ts:199-331` | After a sell was reported executed or unknown, neither this process nor any later one sells the trade again if and only if the sell was executed and its exit transaction committed or its reconciliation mark persisted, or the row cannot be resumed. |
| `ExitProtocol.RestartForgetsUnconfirmedSell` | `engine/src/orchestrator/positionMonitor.ts:323-326` | The run for an unconfirmed sell: after a restart its trade is recovered and sold again. |
| `PositionRecovery.RecoverOpenPositions` | `engine/src/orchestrator/positionRecovery.ts:36-96` | The recovery loop computes the specified books and tally. |
| `PositionRecovery.NewRowIsResumedOrFlagged` | `engine/src/orchestrator/positionRecovery.ts:45-93` | An open row not known before is resumed exactly when its data is complete and no reason stands against it, else flagged, never both. |
| `PositionRecovery.RecoveryIsIdempotent` | `engine/src/orchestrator/positionRecovery.ts:45-49` | Recovering again skips every row and changes nothing. |
| `PositionRecovery.CompleteExactlyWhenNothingMissing` | `engine/src/orchestrator/positionRecovery.ts:98-104` | No field is reported missing exactly when the price is positive, the filled amount is there and the token amount has a character that is no JavaScript white space. |
| `PositionRecovery.RecoveryOnlyFlags` | `engine/src/orchestrator/positionRecovery.ts:57-66` | Recovery writes nothing to the ledger but reasons on rows that had none. |
| `Replay.MergeGlobally` | `engine/src/backtest/replayEngine.ts:75-84` | The loops flatten the map and the sort orders it by time and mint. |
| `Replay.RunReplay` | `engine/src/backtest/replayEngine.ts:153-392` | The event loop is the specified fold over the merged stream, followed by the positions still open. |
| `Replay.MergeIgnoresMapOrder` | `engine/src/backtest/replayEngine.ts:80-82` | The merged stream does not depend on the order in which the map lists the mints. |
| `Replay.ReplayIgnoresMapOrder` | `engine/src/backtest/replayEngine.ts:75-84` | Neither do the trades nor the deferred exits. |
| `Replay.PrefixesAgree` | `engine/src/backtest/replayEngine.ts:205-210` | Inputs that agree up to t merge into streams with the same prefix up to t. |
| `Replay.ReplayNeverLooksAhead` | `engine/src/backtest/replayEngine.ts:205-373` | Inputs that agree on all snapshots up to t give the same trades closed up to t in the same order, and the same entries up to t. |
| `Replay.OnlyThePastCounts` | `engine/src/backtest/replayEngine.ts:205-377` | What a replay says up to t is what it says of the stream cut off at t. |
| `Replay.EachEntryAppearsOnce` | `engine/src/backtest/replayEngine.ts:356-377` | Each simulated entry appears once among the resulting trades, and open positions stay within the hard limits. |
| `Replay.SortIsStable` | `engine/src/backtest/replayEngine.ts:82` | The merged stream is ordered and keeps the order of equal keys. |
| `Base58.ToBase58` | `engine/src/safety/token2022Mint.ts:79-98` | The digit and carry loops spell the specified text. |
| `Base58.FeedByte` | `engine/src/safety/token2022Mint.ts:84-93` | The two carry loops for one byte. |
| `Base58.TextKeepsTheValue` | `engine/src/safety/token2022Mint.ts:80-96` | One 1 for each leading zero byte, then the canonical digits of the big-endian value, the first of which is not zero. |
| `Base58.TextIsInjective` | `engine/src/safety/token2022Mint.ts:79-98` | Two byte strings have the same text only when they are equal. |
| `Base58.AlphabetLetters` | `engine/src/safety/token2022Mint.ts:76` | The alphabet's letter for each digit. |
| `Token2022.ParseToken2022Mint` | `engine/src/safety/token2022Mint.ts:116-147` | The parser returns the specified result, reading only inside the buffer. |
| `Token2022.ReadExtensions` | `engine/src/safety/token2022Mint.ts:132-144` | The offset loop over the extension region. |
| `Token2022.AccountRoundTrips` | `engine/src/safety/token2022Mint.ts:116-147` | A written account with distinct non-zero ids parses to exactly what was written, whatever fills the padding. |
| `Token2022.BaseRoundTrips` | `engine/src/safety/token2022Mint.ts:117-129` | The same for a mint without extensions. |
| `Token2022.AcceptedIsConsecutive` | `engine/src/safety/token2022Mint.ts:134-144` | Every accepted account has distinct non-zero ids whose values are consecutive slices of its extension region. |
| `Token2022.WritingInvertsParsing` | `engine/src/safety/token2022Mint.ts:134-144` | An accepted region is its extensions written one after another, and an ending. |
| `Token2022.ShortPaddingIsRefused` | `engine/src/safety/token2022Mint.ts:135` | One to three bytes after the last entry are a truncated header, zero or not. |
| `ProgramLogs.GetOwnLogLines` | `engine/src/discovery/programLogs.ts:21-44` | The stack loop over the lines' texts returns the lines of the specified walk. |
| `ProgramLogs.GetOwnProgramDataPayloads` | `engine/src/discovery/programLogs.ts:67-90` | The same for data lines, numbered 0, 1, 2, ... |
| `ProgramLogs.AttributionInvertsPrinting` | `engine/src/discovery/programLogs.ts:21-44` | Of the printed text of every forest of nested invocations in which no message looks like an invocation, the walk returns exactly the target's own lines in order, at any depth including self-calls. |
| `ProgramLogs.AttributionInvertsExactlyWhenPlain` | `engine/src/discovery/programLogs.ts:21-44` | Every program gets exactly its own lines, on both channels, if and only if no message logged or emitted looks like an invocation. |
| `ProgramLogs.TruncationLosesOnlyTheEnd` | `engine/src/discovery/programLogs.ts:92-95` | Cut-off logs attribute a prefix of what the whole would. |

## Left out

- VolumeSafety.AnswersTotalWhatHappened: for runs whose creations are accepted while connected and find their mint's recent seconds lost nowhere and still held, which `CreationSafeExactlyWhenWatchedAndHeld` shows to be the exact condition.
- VolumeSafety.AnswersTotalTheCountedLog: for runs whose creations find their mint's recent seconds still held, the half of that condition about what was counted.
- ExitProtocol.MoneyIsBookedOnceAndNothingSoldTwice: for runs whose polls of one trade do not overlap, and within one process; `PollIsSafeExactlyWhenAlone` and `SaleIsFinalExactlyWhenRecorded` give the exact conditions.
- Prices, percentages and volume acceleration as floating-point numbers and the market snapshot built from them: conversions of values whose integer sources are modelled.
- Statistics, latency reservoirs and logging; only the counters named above are kept.
- The volume engine's `reset`, and the emission of coverage changes with what its listeners throw.
- JavaScript number limits: amounts beyond 2^53 and non-finite inputs.
- Random jitter of backoffs: any delay.
- Shutdown races beyond "no new grant after the abort".
- The order and the limit of the SQL queries behind a token's trade history: losses in a row and the last exit are parameters.
- A COMMIT that throws although it became durable.
- The quote gate, which has no admission gate in front of it; the results on one endpoint and on one request apply to it.
- The text of reconciliation reasons beyond their kind, and the names of Token-2022 extensions: reporting only.
- Base64, event decoding, PDA derivation and hashing: library behaviour.
- Scoring weights, fill formulas, exit thresholds and the safety checks: uninterpreted functions.
- `detectDataQualityIssuesAcrossMints`, result labels and notes of a replay: reporting only.
- Network, websocket and SQLite plumbing, discovery subscribers, quote and price clients, shadow runner, analytics, learning and AI layers.
