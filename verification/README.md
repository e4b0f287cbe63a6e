# A verified model of the streaming arbitrage engine

The engine watches the quotes of eight exchanges, looks for a symbol that can be bought on one and sold
dearer on another, and enters both legs with limit orders that are polled, repriced, hedged at market and,
when all else fails, closed again. This project models the parts of it that hold state and loops, and proves
what every run of them keeps.

| file | what it models |
|---|---|
| `Exchange.dfy` | orders, reports, and the execution backend as an adversary that may answer anything; every call is in its log |
| `MarketRetry.dfy`, `EmergencyClose.dfy` | verified market orders: the remainder-sized hedge and the full-size close, the halt flag |
| `RaceGuard.dfy`, `PriceChaser.dfy` | hedge locks and their guards, the race check, repricing of a resting order |
| `AtomicEntry.dfy`, `EntryRun.dfy`, `FinalHedge.dfy`, `EntryExecutor.dfy`, `Sizing.dfy` | the dual-leg entry: one poll, the poll loop and the final check, the hedge after it, the whole run, the quantity |
| `Positions.dfy`, `EntryPositions.dfy` | signed positions on the exchanges from the fills of a log's orders, and what an entry does to them |
| `Pipeline.dfy`, `Queues.dfy`, `Freshness.dfy`, `Overlap.dfy`, `MarketStore.dfy` | the drop-oldest queue as interleaved steps and as objects, the quote store, what the store shows of a feed, and what overlapping operations cost |
| `SymbolMap.dfy`, `Detector.dfy`, `Ingestion.dfy` | concurrent interning, the pairwise detector, and the way from a raw message to an update |
| `RateLimiter.dfy` | the token bucket and its deque of grant times |
| `Portfolio.dfy`, `Admission.dfy` | the accounts, and which opportunities become trades |
| `PriceParser.dfy`, `SymbolKeys.dfy` | decimal parsing, scalar and chunked; Redis keys and symbol names |
| `FlushLoop.dfy` | persistence of the feed in batches |
| `Wrappers.dfy`, `Numbers.dfy` | options, results and histories; absolute value, extremes and multiples |

Concurrency is modelled where the source is concurrent: the queue and the symbol map are step machines whose
threads may interleave anywhere, each atomic operation being one step, and the flush loop's bridge may act
before any pop of its writer. Code that changes state in place is a
class or a loop, proved against a function or a log of what it did. Runs are histories that grow at their end.

`dafny verify dfyconfig.toml` checks everything.

## Main results

1. Every entry run from two resting orders, against any backend, ends settled, cancelled, or with the emergency close of
   the leg this run knows filled as its last calls; its limit orders are each leg's disciplined replacements and at most
   one aggressive order, none of them is left without a full-fill report or a cancel but for one named case, and no market
   order goes out beyond the race's cut, the hedge and the close (`EntryExecutor.RunFromResting`,
   `EntryExecutor.ExecuteAtomicEntryReal`). So what its limit orders can trade is bounded (`EntryExecutor.EntryFillBound`).
2. What an entry leaves on the exchanges, from the fills of all its orders: the positions of every settled run
   (`EntryPositions.SettledPosition`), flat after its exits (`EntryPositions.RoundTripIsFlatIff`, `EntryPositions.RoundTripEarns`), level
   after a hedge (`EntryPositions.LoopHedgeLevelIff`, `EntryPositions.FinalHedgeLevelIff`), flat after a failure
   (`EntryPositions.FailedRunIsFlatIff`), each under an exact condition. They rest on what a hedge or a close is sure to have
   traded (`MarketRetry.HedgeExactIff`, `MarketRetry.CloseIsFlatIff`, `EmergencyClose.ClosingIsFlatIff`) and on the account of the final
   hedge (`FinalHedge.HedgeFinally`, `FinalHedge.FinalHedgeAccounting`). Which entries go out: `EntryExecutor.ChecksPassIff`.
3. Queue conservation over all interleavings (`Pipeline.QueueConservation`), order and freshness with one producer and one
   consumer (`Freshness.RunKeepsOrder`, `Freshness.DrainReflectsLast`), and exactly when the newest items survive
   (`Freshness.RecentIdsAreExact`, `Overlap.RecentExactIff`).
4. Interning is consistent over all interleavings (`SymbolMap.InterningIsConsistent`), a key's id never changes
   (`SymbolMap.RunKeepsIds`), and ids are unique exactly up to 2^32 bumps (`SymbolMap.IdsUniqueIff`).
5. The token bucket's window bound from above and its burst from below (`RateLimiter.WindowBound`, `RateLimiter.BurstGrants`),
   and its deque (`RateLimiter.DequeIsLastSecond`).
6. The detector checks every ordered pair once (`Detector.OpportunityDetector.DetectOpportunitiesForSymbol`), finds exactly
   the spreads from 49.4 bps on (`Detector.FoundIffSpread`), and publishes a strict partial order
   (`Detector.PublishedIsStrictOrder`, `Detector.PublishedExactly`) of opportunities at the quoted prices
   (`Detector.FoundCarriesQuotes`).
7. The accounts are conserved (`Portfolio.RunConserves`), admission is sound (`Admission.RunIsSound`, `Admission.MapIsActive`)
   and bounded (`Admission.TenEntries`), and the available capital stays non-negative exactly when every exit can be afforded
   (`Admission.CapitalIff`).
8. Printed prices parse back on either instruction set (`PriceParser.PrintThenParse`, `PriceParser.ParsePriceAvx512`), keys
   decode back and never collide (`SymbolKeys.KeysDecode`, `SymbolKeys.KeysNeverCollide`), and what the flush loop writes, with
   bridge and writer interleaved anywhere, is an in-order part of what arrived, all of it under an exact condition
   (`FlushLoop.RedisWriter.Run`).

## What turned out not to hold

Each of these is proved with the exact condition, and with a failing input where the condition does not show one.

- A final-check hedge that needs market retries records only the size of its market part, so the exit order of
  that leg is too small unless nothing had filled before (`FinalHedge.FinalHedgeRecordExact`, `FinalHedge.FinalHedgeRecordWrong`).
- When the race check finds both legs filled at different sizes and the later leg is the larger one, its
  balanced size is overwritten by the unbalanced one (`AtomicEntry.RaceRecordExact`, `AtomicEntry.RaceRecordWrong`).
- A hedge that returns Ok is sure to have traded its target exactly when every accepted order was verified
  (`MarketRetry.HedgeExactIff`); otherwise it may trade up to three times as much (`MarketRetry.TripleExposureHappens`).
- After an Ok in-loop hedge nobody asks again about the cancelled order: with no fill of replaced orders on the filled leg,
  the exchanges are sure to be level exactly when every accepted hedge order was verified and the hedged leg's limit orders
  traded nothing (`EntryPositions.LoopHedgeLevelIff`). A run that gave up keeps whatever its cancelled orders had traded
  (`EntryPositions.GivenUpPosition`).
- The exits of an Ok run leave no position exactly when each leg held the size recorded for it
  (`EntryPositions.RoundTripIsFlatIff`).
- Every opportunity published under the default thresholds scores exactly 70 (`Detector.FoundCarriesQuotes`), so the entry modes
  for 75 and 90 are never chosen for one.
- A refill whose 32-bit sum wraps can lose a token in hand (`RateLimiter.WrapLosesToken`); without a wrap it never does
  (`RateLimiter.PassGives`).
- An emergency close that succeeds is not therefore flat: it is sure to be flat exactly when every accepted order was
  verified and the reports sum to the position (`EmergencyClose.ClosingIsFlatIff`, `MarketRetry.CloseIsFlatIff`), and it may have
  closed nothing (`MarketRetry.OkMayCloseNothing`).
- A refused long leg leaves the short leg live (`EntryExecutor.PlaceBothLegs`); a depth abort leaves the other leg's order live
  (`AtomicEntry.HedgeInLoop`); a taken hedge lock leaves a filled leg neither hedged nor closed, with nothing sent after its report
  (`AtomicEntry.PollLeg`).
- When pushes and pops overlap, a drained store is exact for the last `capacity` pushes exactly when the capacity is one
  (`Overlap.RecentExactIff`).
- The symbol map's ids are unique exactly up to 2^32 bumps of its counter (`SymbolMap.IdsUniqueIff`).
- Rounding to both exchanges' steps yields a quantity both accept exactly when one step is a multiple of the other
  (`Sizing.ValidOnBothExactly`).
- Two overlapping admissions of one symbol leave it with two trades exactly when both enter (`Admission.OverlapDoublesIff`,
  `Admission.OverlapDoubles`); a close whose write fails leaves its trade in the map until the next round (`Admission.FailedWriteHeals`).
- The available capital can go below zero: nothing limits what an exit loses. It stays non-negative exactly when each exit's
  loss beyond its position was covered when it was made (`Admission.CapitalIff`, `Admission.ExitOverdraws`); an exit stays
  within its position exactly up to a widening of 10000 bps (`Admission.ExitWithinPosition`, `Admission.CapitalStays`).
- The shutdown does not wait for the bridge: exactly what arrived is written if and only if the bridge never dropped and had
  forwarded everything before the writer's last pop, and the final flush succeeded (`FlushLoop.RedisWriter.Run`).
- A Hyperliquid key comes back to its symbol exactly when the base does not end in SWAP or PERP (`SymbolKeys.KeysDecode`).
- No chunk ever passes the vector parser's digit check, which tests 32 lanes of which 16 are always zero
  (`PriceParser.ChunkNeverPasses`); the routine is right, but never uses its vector path.

## Model

| member | source | states |
|---|---|---|
| MarketRetry.PlaceMarketOrderWithRetry | src/strategy/entry.rs:88-200 | for any backend: at most three orders, each sized at exactly what the reports so far leave over; Ok exactly when the counted fills reach the target; the last order is returned at the counted size; no resting order is touched |
| MarketRetry.TracePosition | src/strategy/entry.rs:88-200 | a run of market orders moves the position on its exchange towards its side by just what it traded, and no other position |
| MarketRetry.ExposureSplit | src/strategy/entry.rs:88-200 | if no fill exceeds its order, what really traded is what was counted plus at most one target for each unverified order |
| MarketRetry.HedgeExposure | src/strategy/entry.rs:88-200 | a hedge that returns Ok counted exactly its target and really traded between one and three targets |
| MarketRetry.HedgeExactIff | src/strategy/entry.rs:88-200 | it is sure to have traded exactly its target, under every fill assignment the reports allow, if and only if every accepted order was verified |
| MarketRetry.TripleExposureHappens | src/strategy/entry.rs:153-196 | the factor three is reached |
| MarketRetry.PlaceWithRetry | src/strategy/atomic_execution.rs:441-489 | every order has the full size; it stops early only on a report with status Filled, otherwise when attempts run out; Ok exactly when the last order was accepted, filled or not |
| MarketRetry.CloseIsFlatIff | src/strategy/atomic_execution.rs:441-489 | a full-size run, whatever it returned, is sure to have closed exactly the position if and only if every accepted order was verified and the reports sum to the size |
| MarketRetry.OkMayCloseNothing | src/strategy/atomic_execution.rs:474-481 | for every attempt limit there is a run, each order under its own id, that returns Ok and trades nothing |
| EmergencyClose.CloseInHalves | src/strategy/entry.rs:255-290 | the split after a quantity-limit refusal: two runs of half the size, closed only if both were accepted |
| EmergencyClose.EmergencyClosePosition | src/strategy/entry.rs:205-322 | the opposite market order of the whole size reaches the exchange; it is split in halves exactly after a quantity-limit refusal; it fails exactly when it raises the halt flag; its calls are exactly those of its runs |
| EmergencyClose.ClosePosition | src/strategy/entry.rs:215-290 | all calls of a close move the position on the filled order's exchange against its side by just what they traded, and no other position |
| EmergencyClose.ClosingExposure | src/strategy/entry.rs:240-290 | a close trades at most ten times the position, fourteen after a split |
| EmergencyClose.ClosingExposureHappens | src/strategy/entry.rs:240-290 | both bounds are reached |
| EmergencyClose.ClosingIsFlatIff | src/strategy/entry.rs:240-290 | whatever a close returned, the position on the closed order's exchange is sure to be zero after it if and only if every accepted order of its runs was verified and the reports sum to what was held there in the order's direction |
| RaceGuard.HedgeLocks.TryAcquire | src/strategy/atomic_execution.rs:368-379 | succeeds exactly when the symbol is free; the lock set stays exactly the symbols of live guards |
| RaceGuard.HedgeLocks.Drop | src/strategy/atomic_execution.rs:339-345 | a guard leaving scope frees its symbol and no other |
| RaceGuard.CheckBothLegs | src/strategy/atomic_execution.rs:382-413 | both orders are queried; each verdict is given exactly when both reports say so, with their quantities; one missing answer is an error |
| PriceChaser.RepriceBand | src/strategy/price_chaser.rs:131-134 | an order is left alone exactly when the best price lies within the threshold band around its price |
| PriceChaser.RepriceOrder | src/strategy/price_chaser.rs:138-183 | the new order only goes out after an acknowledged cancel, and goes on record as placed after it; the move is recorded only if it was accepted; at most one of the two orders is live afterwards |
| PriceChaser.AtMostOneLive | src/strategy/price_chaser.rs:138-183 | at every moment of a tracked run the leg has exactly its resting order live, or none |
| PriceChaser.ChainFillBound | src/strategy/entry.rs:1183-1207 | a leg's order and its replacements trade at most (1 + max reprices) sizes in all, and at most one when only the last of them traded |
| PriceChaser.ChaseUntilFilled | src/strategy/price_chaser.rs:205-246 | the standalone chase: the leg's own side of the book is quoted, and its order is cancelled and placed again at the quote exactly when that calls for it; accepted replacements equal the recorded reprices and never exceed the limit; Ok exactly on a Filled report of the current order; a timeout only after all its polls |
| AtomicEntry.BalanceRace | src/strategy/entry.rs:903-986 | a mismatch above 0.001, and nothing less, is cut back on the larger leg by a market order of the difference |
| AtomicEntry.RaceSettles | src/strategy/entry.rs:903-968 | with the reported quantities held and the balancing order filled in full each leg's exchange is left with that leg's race position, and the two cancel out; without an order they are within 0.001 of each other |
| AtomicEntry.RaceRecordExact | src/strategy/entry.rs:903-980 | the recorded sizes are the real positions if and only if it was not the later leg that was cut back |
| AtomicEntry.RaceRecordWrong | src/strategy/entry.rs:903-980 | a race that leaves one contract and records two |
| AtomicEntry.MarketHedgeOrClose | src/strategy/entry.rs:1092-1165 | the other leg is filled by the market retry at the counted size, under fresh increasing ids, or the retry's calls are followed by those of the filled leg's emergency close, whose failure is the error that halts |
| AtomicEntry.CloseOnDepth | src/strategy/entry.rs:1011-1059 | a critical depth sends the filled leg's emergency close and nothing else; its failure is the error that halts |
| AtomicEntry.HedgedLegsEqual | src/strategy/entry.rs:1011-1131 | an in-loop hedge whose fills stay within their orders leaves both legs recorded at the same size |
| AtomicEntry.HedgeInLoop | src/strategy/entry.rs:1011-1166 | the other leg's depth is asked first; on a critical one the close's calls and nothing else, the other leg as live as it was; otherwise the other leg's cancel, then the market orders, then on failure the close's calls |
| AtomicEntry.ResolveFill | src/strategy/entry.rs:889-1166 | after a fill under the lock both orders are queried; if both reports say filled the race is balanced, otherwise the other leg is cancelled and hedged, or the run's last calls are the filled leg's close |
| AtomicEntry.HandleFill | src/strategy/entry.rs:868-1180 | a reported fill is resolved under the hedge lock, or not at all when the lock is taken; the lock set is left as it was |
| AtomicEntry.PollLeg | src/strategy/entry.rs:843-1180 | one query; its report alone decides whether the leg is filled (status Filled, filled at least the total), or its order found cancelled; a filled leg leaves the poll with both legs filled, or the run fails and its last calls are the close of the leg reported filled since the start, or, the lock being taken, nothing follows the report; the lock set is restored |
| EntryRun.RestIsChasing | src/strategy/entry.rs:825-840 | two resting orders start the chase with no replacement |
| EntryRun.ChaseLeg | src/strategy/entry.rs:1183-1207 | a leg below its limit is quoted on its own side of the book, and its order is cancelled and placed again at the quote exactly when that is off by more than the threshold; each leg rests with the last of its replacements, alike but for id and price, each placed after its predecessor's acknowledged cancel; one live order each |
| EntryRun.PollAndChase | src/strategy/entry.rs:843-1207 | an unfilled leg is polled once and then chased, or ends the loop when its order was cancelled; a filled one settles or fails the run and is not chased |
| EntryRun.GiveUp | src/strategy/entry.rs:1565-1598 | a collapsed spread or a leg out of reprices, and nothing else, cancels both orders and ends the run |
| EntryRun.SpreadMovedIff | src/strategy/entry.rs:1565-1580 | with positive prices the spread has collapsed if and only if the ratio of the two prices has moved by more than the limit |
| EntryRun.PollRound | src/strategy/entry.rs:840-1604 | one round polls and chases the long leg and then the short one, and goes on only if there is no reason to give up; it leaves both legs settled or the chase going, or fails with its cancels or its close as the run's last calls |
| EntryRun.PollLoop | src/strategy/entry.rs:840-1604 | it is left unsettled only after all the rounds the clock allows or on an order found cancelled; at its head both legs are settled or neither has been reported filled and no market order was sent; or it fails, for its reason, the cancels or the close of this run being its last calls |
| EntryRun.FinishedIsEnded | src/strategy/entry.rs:840-2155 | when a run is over the current order of each leg was reported fully filled or had its cancel issued, except the other leg's one after a depth abort or with the lock taken |
| EntryRun.FinalCheck | src/strategy/entry.rs:1609-1639 | both orders are queried; a leg is marked filled exactly when its report says so; when neither does, both current orders are cancelled |
| FinalHedge.FinalHedgeAccounting | src/strategy/entry.rs:1641-1897 | fills reported for the cancelled order, the aggressive limit and the market retries never sum to more than the quantity, and to exactly it when the hedge completes |
| FinalHedge.FinalHedgeRecordExact | src/strategy/entry.rs:1731-1866 | the recorded size is the hedged quantity if and only if no market retry was needed or nothing had filled before it |
| FinalHedge.FinalHedgeRecordWrong | src/strategy/entry.rs:1731-1866 | a completed hedge of two contracts that records one |
| FinalHedge.AggressiveLimit | src/strategy/entry.rs:1740-1801 | the order goes out at the best price of the other side of the book for what is uncovered, and is cancelled unless it filled completely |
| FinalHedge.HedgeRemaining | src/strategy/entry.rs:1736-1896 | no source is used once the ones before it cover the quantity; each is sized at what they leave |
| FinalHedge.HedgeFinally | src/strategy/entry.rs:1641-1897 | for either leg, completed or failed: the depth is asked first; no source is used once the ones before it cover the quantity, and each is tried until they do; the calls are exactly those of the run, followed on failure by the filled leg's close; the lock is returned |
| EntryExecutor.PlaceBothLegs | src/strategy/entry.rs:799-825 | both orders are sent, the long one first; a refused short leg cancels the long one, a refused long leg leaves an accepted short one live |
| EntryExecutor.AfterLoop | src/strategy/entry.rs:1609-2155 | both orders are checked once more: both filled end the run, none filled cancels both, one filled is hedged at its reported quantity, the final hedge's calls and its close being the last ones, with at most the aggressive limit order added |
| EntryExecutor.RunFromResting | src/strategy/entry.rs:830-2282 | every run from two resting orders is Ok with one leg reported filled since its start and the other reported too, or cancelled and covered by market orders sized at the remainder, or by a final hedge that accounts for the size, and the exits placed; or Err with no report of a full fill, no market order and both orders cancelled last; or Err with the emergency close of the known-filled leg as its last calls, whose own failure halts; the last-resort branch is unreachable; all limit orders before the exits are replacements within the limit and one aggressive order, each reported filled or with its cancel issued but for the other leg's one after a depth abort or with the lock taken |
| EntryExecutor.EntryFillBound | src/strategy/entry.rs:830-2155 | the limit orders of one leg trade at most (1 + max reprices) contract quantities and what the aggressive order adds |
| EntryExecutor.ChecksProtect | src/strategy/entry.rs:590-797 | orders go out only for a positive quantity within the position size on either leg, with both balances covering 120% of it, never after a halt |
| EntryExecutor.ChecksPassIff | src/strategy/entry.rs:590-797 | with positive prices and steps an entry goes out if and only if trading is not halted, the position is positive, within the available capital and buys a step of either exchange at the higher price, both balances cover 120% of it, and, below a confidence of 90, both depths are known and not critical |
| EntryExecutor.CheckTells | src/strategy/entry.rs:590-797 | the failure of a check names a reason that holds |
| EntryExecutor.ExecuteAtomicEntryReal | src/strategy/entry.rs:584-2283 | a failed check sends nothing and changes nothing; past the checks both templates are sent; once both are accepted the run that follows, which is returned, has everything said of a run from two resting orders, with at most five reprices a leg |
| EntryPositions.EntryPosition | src/strategy/entry.rs:643-671 | fills of the entry orders are bought on the opportunity's long exchange at its long price and sold on its short exchange at its short price |
| EntryPositions.SettledPosition | src/strategy/entry.rs:830-2155 | a settled run leaves on each leg's exchange, in that leg's direction, exactly what its limit, market and balancing orders traded for the leg, and nothing on any other exchange |
| EntryPositions.RoundTripIsFlatIff | src/strategy/entry.rs:830-2282 | after an Ok run whose exits fill every position is back at its start if and only if each leg held exactly the size recorded for it |
| EntryPositions.RoundTripEarns | src/strategy/entry.rs:2157-2282 | a round trip without reprices, both entries and both exits filled for the recorded size, leaves no position and earns 1.8 times the spread for each contract |
| EntryPositions.LoopHedgeLevelIff | src/strategy/entry.rs:1078-1131 | after an in-loop hedge the two exchanges are sure to be level if and only if every accepted hedge order was verified and the hedged leg's limit orders traded just what the filled leg's replaced ones did |
| EntryPositions.FinalHedgeLevelIff | src/strategy/entry.rs:1683-1866 | after a final hedge they are sure to be level if and only if every accepted market order was verified and the hedged leg's limit orders traded just what was counted for them and what the filled leg's replaced ones did |
| EntryPositions.FailedRunIsFlatIff | src/strategy/entry.rs:1011-1165 | a run that failed after a fill is sure to have no position left on the filled leg's exchange if and only if every accepted order of the close that ends it was verified and the reports sum to what the leg's limit orders had traded |
| EntryPositions.GivenUpPosition | src/strategy/entry.rs:1565-1639 | a run that gave up, or was left with its lock taken, still holds whatever its limit orders had traded |
| Sizing.NotionalWithinPosition | src/strategy/entry.rs:613-636 | the quantity never exceeds the raw one, so each leg's notional stays within the position size |
| Sizing.LargestOnBoth | src/strategy/entry.rs:629-636 | with one step a multiple of the other the quantity is the largest valid on both exchanges and misses raw by less than the coarser step |
| Sizing.ValidOnBothExactly | src/strategy/entry.rs:629-636 | the quantity is valid on both exchanges for every raw one if and only if one step is a multiple of the other |
| Sizing.PositiveIff | src/strategy/entry.rs:629-640 | the quantity is positive if and only if the raw one reaches a step of either exchange |
| Pipeline.StepConserves | src/strategy/pipeline.rs:249-277 | one step of any thread keeps depth within capacity and every balance at exactly what the threads in flight owe |
| Pipeline.QueueConservation | src/strategy/pipeline.rs:249-277 | over all interleavings of any number of producers and consumers: depth within capacity, and at rest pushes = popped + queued + evicted + lost, with every counter exact |
| Queues.DropOldestKeepsNewest | src/strategy/pipeline.rs:249-277 | any number of drop-oldest pushes leaves the newest `capacity` items |
| Queues.MarketPipeline.Push | src/strategy/pipeline.rs:249-277 | a push used alone is a drop-oldest push; the counters balance |
| Queues.MarketPipeline.TryPush | src/strategy/pipeline.rs:289-305 | refuses exactly when full, giving the item back |
| Queues.MarketPipeline.Pop | src/strategy/pipeline.rs:338-349 | takes the oldest item and counts it |
| Queues.MarketPipeline.PopBatch | src/strategy/pipeline.rs:374-385 | the batch is the front of the queue in order, all of it or the first `max_batch` |
| Queues.OpportunityQueue.Push | src/strategy/opportunity_queue.rs:149-160 | a drop-oldest push; pushes = pops + drops + depth |
| Queues.OpportunityQueue.Pop | src/strategy/opportunity_queue.rs:201-207 | takes the oldest opportunity and counts it |
| Freshness.RunKeepsSuffix | src/strategy/pipeline.rs:249-277 | with one producer, over every interleaving, the queue is a contiguous suffix of what entered, nothing new is lost, and only older items are evicted |
| Freshness.SingleProducerCounters | src/strategy/pipeline.rs:249-277 | with one producer push_count <= pop_count + drop_count + depth, with equality exactly when no eviction found the queue empty |
| Freshness.RunKeepsOrder | src/strategy/opportunity_detector.rs:136-153 | with one producer and one consumer every item that left the queue was evicted, is held, or was delivered in push order |
| Freshness.SlotShowsNewest | src/strategy/market_data.rs:126-141 | a slot shows the newest delivered update of its id |
| Freshness.SlotNeverGoesBack | src/strategy/market_data.rs:126-141 | no step of any interleaving moves a slot to an earlier-pushed update |
| Freshness.DrainReflectsLast | src/strategy/opportunity_detector.rs:136-153 | after a drain the last update pushed is reflected exactly as by a feed that loses nothing |
| Freshness.WholePushIsDropOldest | src/strategy/pipeline.rs:249-277 | the steps of an uninterrupted push amount to the drop-oldest function, in both counting orders |
| Freshness.RecentIdsAreExact | src/strategy/pipeline.rs:249-277 | without overlap, every id whose last push is among the last `capacity` has the value the lossless feed gives it |
| Overlap.OverlapEvictsSecond | src/strategy/pipeline.rs:257-263 | a pop between a failed attempt and its eviction makes the eviction take the second oldest item |
| Overlap.OverlapLosesRecent | src/strategy/pipeline.rs:249-277 | for every capacity of two or more some interleaving ends drained with push 1 of the last `capacity` pushes lost |
| Overlap.RecentExactIff | src/strategy/pipeline.rs:249-277 | over all interleavings every drained store shows the last `capacity` pushes as the lossless feed would, if and only if the capacity is one |
| MarketStore.MarketDataStore.Update | src/strategy/market_data.rs:126-141 | every slot holds the newest update of its id; an id of 256 or more changes nothing |
| MarketStore.MarketDataStore.GetBid | src/strategy/market_data.rs:293-300 | a bid is known exactly below the highest updated id |
| MarketStore.MarketDataStore.GetAsk | src/strategy/market_data.rs:308-315 | an ask is known exactly below the highest updated id |
| MarketStore.MarketDataStore.GetSpreadBps | src/strategy/market_data.rs:275-285 | the spread of the newest update, or zero |
| MarketStore.MarketDataStore.Spreads | src/strategy/market_data.rs:396-455 | one entry for each slot below the count, with the spread of its newest update |
| MarketStore.MarketDataStore.Clear | src/strategy/market_data.rs:473-480 | back to no updates |
| MarketStore.CountIsTight | src/strategy/market_data.rs:126-141 | the count ends at an updated id, at most 256, and nothing above it was updated |
| MarketStore.SpreadTimesBid | src/strategy/market_data.rs:275-285 | the spread is in basis points of the bid |
| SymbolMap.RunIsInterned | src/strategy/symbol_map.rs:113-138 | in every interleaving: ids injective, reverse map inside the inverse, the gap exactly the threads between the two inserts; bumps = mapped + reserved + wasted |
| SymbolMap.InterningIsConsistent | src/strategy/symbol_map.rs:113-138 | returns agree on one key and differ on distinct keys; with no call in flight the maps are exact inverses and next_id is 1 + mapped + wasted |
| SymbolMap.RunKeepsIds | src/strategy/symbol_map.rs:113-138 | in every interleaving a key keeps its id from any moment to the end of the run |
| SymbolMap.WrapReusesIds | src/strategy/symbol_map.rs:121-122 | after 2^32 bumps the next id is one already mapped |
| SymbolMap.IdsUniqueIff | src/strategy/symbol_map.rs:113-138 | over all interleavings that bump the counter at most n times ids are unique if and only if n is at most 2^32 |
| SymbolMap.UninterruptedCall | src/strategy/symbol_map.rs:113-138 | the steps of an uninterrupted call amount to interning its key and returning its id |
| SymbolMap.Interner.constructor | src/strategy/symbol_map.rs:62-91 | a fresh map holds exactly the 60 common symbols under ids 1 to 60 by position |
| SymbolMap.Interner.GetOrInsert | src/strategy/symbol_map.rs:113-138 | the new maps are the interning of the key and the result is its id |
| SymbolMap.Interner.Get | src/strategy/symbol_map.rs:149-151 | an id names its key exactly when some key has it |
| RateLimiter.PassGrantsIff | src/strategy/rate_limiter.rs:36-54 | a pass grants exactly when a token is there or a whole one was refilled |
| RateLimiter.PassGives | src/strategy/rate_limiter.rs:36-54 | a pass gives up less than one token of what the bucket and the time since its last refill are worth, as far as this is within the burst |
| RateLimiter.BurstGrants | src/strategy/rate_limiter.rs:32-64 | after an idle time of burst / rate seconds the next passes all grant, as many as the burst |
| RateLimiter.WrapLosesToken | src/strategy/rate_limiter.rs:38-41 | where the 32-bit sum wraps a pass with a token in hand does not grant |
| RateLimiter.WindowBound | src/strategy/rate_limiter.rs:32-64 | in every run every window of length w grants strictly fewer than burst + 1 + rate * w; tokens never exceed the burst |
| RateLimiter.DequeIsLastSecond | src/strategy/rate_limiter.rs:42-54 | the deque is sorted, is exactly the grants of the last second, and holds at most burst + rate |
| RateLimiter.StatsAreExact | src/strategy/rate_limiter.rs:78-90 | counting the deque at any later time counts every grant of the last second |
| RateLimiter.Limiter.TryAcquire | src/strategy/rate_limiter.rs:33-64 | one locked pass: new state and grant are those of the pass function |
| RateLimiter.Limiter.Acquire | src/strategy/rate_limiter.rs:32-76 | the loop stops at the first pass that grants, having done exactly the passes of its readings |
| RateLimiter.Limiter.Stats | src/strategy/rate_limiter.rs:78-90 | the requests of the last second, counted |
| Detector.FoundIffSpread | src/strategy/opportunity_detector.rs:209-254 | under the default thresholds an opportunity is found if and only if the spread is at least 49.4 bps; the funding and profit filters never reject |
| Detector.PublishedIsStrictOrder | src/strategy/opportunity_detector.rs:187-193 | with proper quotes any chain of published pairs has distinct ends and is published end to end: a strict partial order without cycles |
| Detector.ValidQuoteIsNewest | src/strategy/opportunity_detector.rs:403-414 | a quote the detector accepts is the newest update of an id below 256, and proper if ingestion was |
| Detector.IngestedMarket | src/main.rs:190-193 | what ingestion lets in makes every symbol's market proper |
| Detector.OpportunityDetector.CheckOpportunity | src/strategy/opportunity_detector.rs:201-321 | the opportunity is pushed exactly when the verdict finds one; otherwise exactly one filter counts it |
| Detector.OpportunityDetector.GetExchangesForSymbol | src/strategy/opportunity_detector.rs:379-400 | exactly the known exchanges with a positive bid, in order; the symbol is interned for all eight |
| Detector.OpportunityDetector.GetPrices | src/strategy/opportunity_detector.rs:403-414 | the stored quote when both prices are positive |
| Detector.FoundIffExpected | src/strategy/opportunity_detector.rs:172-196 | after complete checks an opportunity is found if and only if it is the verdict on a pair of distinct exchanges with valid quotes |
| Detector.FoundCarriesQuotes | src/strategy/opportunity_detector.rs:209-321 | every opportunity found buys at the ask of its long exchange, below the bid of its short one at which it sells; its spread and profit account for both fees by name, slippage and funding; under the default thresholds its score is always 70 |
| Detector.PublishedExactly | src/strategy/opportunity_detector.rs:172-254 | under the default thresholds the complete checks of a symbol find exactly its published relation |
| Detector.OpportunityDetector.DetectOpportunitiesForSymbol | src/strategy/opportunity_detector.rs:172-197 | every ordered pair of distinct validly quoted exchanges is checked exactly once; finds are pushed in order, other checks counted once |
| Detector.OpportunityDetector.HandleNext | src/strategy/opportunity_detector.rs:136-153 | one round stores the oldest queued update and, when its id is mapped, checks its symbol completely |
| Ingestion.ParsePriceSimd | src/exchange_parser.rs:6-24 | both instruction sets parse alike; the empty string is no price |
| Ingestion.ParseToMarketUpdate | src/main.rs:152-211 | an update comes out if and only if the key names a symbol and 0 < bid < ask, under that symbol's id; a rejected message interns nothing |
| Ingestion.PrintedMessage | src/main.rs:152-211 | a message on a key built for a base with printed prices is let in under the base's standard name with exactly those prices |
| Portfolio.RunConserves | src/strategy/portfolio.rs:81-178 | over every sequence of opens and closes: available + open = starting + pnl; open, pnl, wins, losses and leg-outs are what the trade lists say |
| Portfolio.PortfolioManager.OpenTrade | src/strategy/portfolio.rs:81-118 | rejects exactly what exceeds the available capital; a failed write fails the call with the trade open |
| Portfolio.PortfolioManager.CloseTrade | src/strategy/portfolio.rs:122-178 | the first trade with the id moves to the closed ones, a gain counts as a win and a leg-out that loses as one; an unknown id changes nothing and is Ok |
| Portfolio.PortfolioManager.GetPortfolioMetrics | src/strategy/portfolio.rs:181-227 | the rates, the annualised one included, in terms of the trade lists; on a starting capital of zero exactly those over it are no numbers |
| Admission.StrategyRunner.Decide | src/strategy/execute_opportunity_impl.rs:106-310 | the chain of decisions passes exactly under the stated condition, with the position size; a refusal names a reason that holds, and two of them are never given |
| Admission.PassesIff | src/strategy/execute_opportunity_impl.rs:106-310 | with positive prices an entry is attempted if and only if the short price is above the long one by more than the fees, the constraints hold, ten dollars are available of at least a hundred, and in live mode both exchanges can be traded and hold ten dollars, the primary one in demo mode |
| Admission.PositionIs | src/strategy/entry.rs:325-343 | the position is the smaller of a tenth of the capital and what is available, nothing below ten dollars |
| Admission.StrategyRunner.ExecuteOpportunity | src/strategy/execute_opportunity_impl.rs:18-378 | enters if and only if the symbol is free, every decision passes and the entry yields a trade; otherwise map and portfolio are what they were, no placeholder left |
| Admission.StrategyRunner.Enter | src/strategy/execute_opportunity_impl.rs:312-377 | the placeholder goes on every path: timeout, refusal, trade |
| Admission.StrategyRunner.CheckExit | src/strategy/runner.rs:1518-1586 | an exiting trade is closed at the profit of its spreads and fees and removed; a failed write leaves it in the map |
| Admission.ExitWithinPosition | src/strategy/runner.rs:1529-1538 | an exit loses no more than the position if and only if the spread has not widened, fees included, by more than 10000 bps |
| Admission.ExitBreaksEven | src/strategy/runner.rs:1529-1538 | an exit breaks even exactly when the spread has narrowed by the fees, and each basis point more or less moves its profit by a ten-thousandth of the position |
| Admission.RunIsSound | src/strategy/execute_opportunity_impl.rs:26-377 | over every sequence of calls and exits: one active or exiting trade for each symbol, portfolio trades in the map, accounts conserved |
| Admission.CapitalIff | src/strategy/portfolio.rs:122-178 | the available capital is never negative in a run if and only if at every exit it covered what the exit lost beyond its position |
| Admission.CapitalStays | src/strategy/portfolio.rs:122-178 | it is never negative as long as no exit loses more than its position |
| Admission.ExitOverdraws | src/strategy/runner.rs:1529-1538 | a run of one trade whose exit leaves the available capital negative |
| Admission.MapIsActive | src/strategy/execute_opportunity_impl.rs:346-377 | as long as no close fails to write, the map holds exactly the portfolio's active trades |
| Admission.FailedWriteHeals | src/strategy/runner.rs:1567-1584 | a failed close write leaves the trade in the map, and the next round removes it |
| Admission.TenEntries | src/strategy/entry.rs:325-343 | from a fresh portfolio at most ten entries succeed before a close, each for a tenth; none below a hundred dollars |
| Admission.OverlapDoublesIff | src/strategy/execute_opportunity_impl.rs:26-94 | two overlapping calls past the duplicate check leave the symbol with two trades if and only if both enter |
| Admission.OverlapDoubles | src/strategy/execute_opportunity_impl.rs:26-94 | it happens on a fresh system |
| PriceParser.ParsesPointed | src/exchange_parser.rs:28-88 | every optionally signed digit string with a point, up to 32 bytes, parses to its whole part plus its fraction |
| PriceParser.PointDivides | src/exchange_parser.rs:77-80 | dividing all digits read as one number by the power of ten of the decimals gives the whole part plus the fraction |
| PriceParser.PrintThenParse | src/exchange_parser.rs:28-88 | parsing a printed fixed-point number n / 10^k gives it back |
| PriceParser.ReadsExactlyPlain | src/exchange_parser.rs:49-75 | the loop reads to the end exactly the digit strings with at most one point; any other is settled by its first offending byte |
| PriceParser.ParseSettles | src/exchange_parser.rs:28-88 | within 32 bytes digits with at most one point parse to a number; any other string is left to the standard parser if its first offending byte is a point, an e or an E, and is no price otherwise |
| PriceParser.ParseDefers | src/exchange_parser.rs:28-36 | the empty string and anything longer go to the standard parser |
| PriceParser.PlainIsSpelled | src/exchange_parser.rs:49-75 | every string read to the end is one whose number is known: digits alone or with a point, after an optional minus |
| PriceParser.ParsePriceFast | src/exchange_parser.rs:28-88 | the byte loop computes the parse function |
| PriceParser.ChunkNeverPasses | src/exchange_parser.rs:128-152 | no chunk passes the digit check |
| PriceParser.ParsePriceAvx512 | src/exchange_parser.rs:94-205 | the chunked routine agrees with the scalar one on every input |
| SymbolKeys.NormalizeSymbol | src/exchange_parser.rs:629-661 | the in-place edits compute the standard name |
| SymbolKeys.NormalizeFoldsCase | src/exchange_parser.rs:629-661 | upper and lower case name the same symbol |
| SymbolKeys.OkxNormalizes | src/exchange_parser.rs:591-599 | BASE-USDT-SWAP comes back |
| SymbolKeys.ParadexNormalizes | src/exchange_parser.rs:614-622 | BASE-USD-PERP comes back: USD nowhere reaches over the end of the base |
| SymbolKeys.KucoinNormalizes | src/exchange_parser.rs:600-603 | the M suffix goes |
| SymbolKeys.BaseNormalizesIff | src/exchange_parser.rs:604-612 | the bare base comes back if and only if it does not end in SWAP or PERP |
| SymbolKeys.KeysDecode | src/exchange_parser.rs:583-626 | every key built for base + USDT on any exchange decodes back, for Hyperliquid exactly when the base is unmarked |
| SymbolKeys.KeysAreListed | src/exchange_parser.rs:583-626 | on every exchange exactly the listed keys are built, in order, with the exchange, market, channel and name as their fields |
| SymbolKeys.DecodesFrom | src/main.rs:152-170 | a key of three fields or more names its first and its last one |
| SymbolKeys.TwoFieldsNameNothing | src/main.rs:160-163 | a key of two fields names nothing |
| SymbolKeys.KeysNeverCollide | src/exchange_parser.rs:583-626 | keys of different exchanges or bases are different |
| FlushLoop.RedisWriter.Forward | src/main.rs:217-239 | uninterrupted, the bridge forwards drop-oldest |
| FlushLoop.RedisWriter.BridgeStep | src/main.rs:232-237 | each single operation of the bridge keeps the order and the account of what was received; the second push always finds room |
| FlushLoop.RedisWriter.Tick | src/main.rs:105-122 | with bridge operations before any pop: flushed batches followed by the buffer stay exactly what was taken, and with what is queued or held an in-order part of what arrived; the buffer and every batch stay within 512 |
| FlushLoop.RedisWriter.Shutdown | src/main.rs:79-103 | the queue is found empty and nothing taken is lost or doubled however flushes fail and whatever the bridge does; when every flush succeeds all batches but the last are full ones of 512 and nothing stays behind |
| FlushLoop.RedisWriter.Run | src/main.rs:51-141 | the whole life, bridge and writer interleaved anywhere: what is written is an in-order part of what arrived and the rest is accounted for; exactly what arrived is written if and only if nothing was dropped, everything was forwarded before the last pop, and the final flush succeeded |

## Left out

- WebSocket connectors, the JSON extraction of prices and funding rates, the terminal UI, the metrics server and logging: no state of their own; the extracted price strings are inputs.
- Redis, UUIDs and clocks: calls that may fail, fresh ids, and clock readings that never decrease. Polling loops with a timeout run for an arbitrary number of polls.
- IEEE-754 rounding: prices, quantities and capital are exact reals, the refill is exact integer arithmetic on nanoseconds.
- Widths: counters of 64 bits do not wrap here; the 32-bit id counter and the 32-bit token sum do.
- The backend echoes an accepted order unchanged under an id above all it has given out; what else it answers is arbitrary, reports included. Statements about fills assume that no order trades more than its size, that a report which arrives tells an order's final fill, and, for the final hedge, that the cancelled order's report is within the quantity; they say so.
- The process-wide hedge lock set is changed only by the run itself while it lasts.
- EntryExecutor.ExecuteAtomicEntryReal: a zero price or a zero quantity step, where floating point yields infinities or no number, is not modelled; negative ones are. What the checks protect is stated for positive ones, as the detector publishes them.
- EntryExecutor.RunFromResting: a zero long price is not modelled either.
- The outer 15 s timeout that drops an entry in the middle: only the cleanup of its placeholder is modelled. Timing metrics of hedges are not modelled.
- The pre-trade depth checks and the hedge depth check are answers of the environment; the branch on their warning level only logs.
- The internals of DashMap and ArrayQueue and relaxed memory order: each of their operations is one atomic step. So is not modelled that the exit loop removes a trade while it holds a reference into the same map (src/strategy/runner.rs lines 1518 to 1584), which can block for good. ExecutionPipeline repeats MarketPipeline and is not written twice; OpportunityQueue's batch pop repeats MarketPipeline's.
- Queues.MarketPipeline.PopBatch: one caller at a time; interleaved pops are covered by the step machine.
- FlushLoop.RedisWriter.Run: the bridge's operations fall before the writer's pops; those during a flush show before the next pop, those after the last one leave the written batches as they are.
- RateLimiter.Limiter.Acquire: the time slept between passes only shows as the next reading; a rate of zero with an empty bucket, on which the source's sleep time panics, just never grants.
- Detector.OpportunityDetector.CheckOpportunity: the constant depths, the derived metrics and the timestamp of an opportunity are not modelled; exchanges are positions in the list of known ones.
- Admission.RunIsSound: calls run one at a time; trades enter only through this path, not through the legacy stub that fills a map directly.
- Admission.StrategyRunner.CheckExit: the exit signals and the spreads and fees of the exit are inputs; the cancels of exit orders are not modelled.
- SymbolKeys.NormalizeSymbol: letters are ASCII.
- PriceParser.ParsePriceFast: the standard parser it falls back to is a parameter.
- Fee tables beyond the eight exchanges, opportunity scoring, confluence metrics, latency tracking, funding trackers and the simulated paper entry: tables and single expressions.
