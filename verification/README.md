# Verification model of the trading engine's stateful cores

This Dafny project models the small stateful engines at the heart of the repository and proves what they
promise over whole runs. Code that works on values is modelled by datatypes, functions and lemmas; code that
updates state is modelled by classes and loops whose methods are proved to compute those functions.

| files | models |
|---|---|
| `TaxLots`, `TaxEstimate` | tax-lot consumption and the tax estimate |
| `Ledger`, `LedgerRecords`, `Portfolio` | cash, positions, realised profit, trade history, wash-sale basis |
| `WashSales`, `WashWindow`, `AverageCost` | what buys and sells do to wash-sale losses, lot prices and the average cost |
| `Orders`, `OrderPipeline`, `OrderManager` | the order pipeline, partial fills and continuations |
| `OrderFills`, `OrderCash` | how much an order is filled over its life, and what that does to the money |
| `RateLimit`, `RetryAfter` | the in-memory token bucket, its bounded store, the Lua twin, and what their replies mean |
| `RateEviction`, `RateRecency` | which keys the store remembers, and when eviction lets too much in |
| `HistoricalCache`, `CacheTraffic` | the LRU frame cache and its counters |
| `Versioning`, `VersionService` | strategy versions, as interleaved steps and as uninterrupted methods |
| `Rollback`, `VersionCalls`, `Activation`, `CoarseClock` | which version a rollback restores, what was ever active, a run with a stopped clock |
| `Sessions`, `SessionCalls`, `SessionService` | user sessions, in the same two forms |
| `CapitalAllocation`, `AllocationTies` | largest-remainder apportionment |
| `Hrp` | single-linkage ordering and recursive bisection |
| `Drawdown` | drawdown episodes and curves against their definitions |
| `RiskGate`, `RiskDecisions` | order limits, velocity and circuit breaker |
| `CorpActions`, `ActionEffects` | back-adjustment of prices and volumes |
| `AuditLog`, `AuditRecords` | the hash chain and what it records |
| `Secrets`, `SecretRecords`, `SecretRaces` | key rotation, what is stored since when, and calls that overlap a re-encryption |
| `Wrappers`, `Sums`, `Products`, `Sorting`, `OrderedDict`, `IdIndex` | shared: results, sums and products in any order, stable sorting, insertion-ordered dictionaries, records listed by id |

Conventions. Floats and `Decimal` are exact reals; clocks, new ids, tokens and the answers of backends are
inputs; an `await` on a store is a point where other tasks may run (`Versioning`, `Sessions`), so invariants there
hold after every single write. An exception is an `Err` value with the state the code leaves behind.
A "run" is an arbitrary finite sequence of calls or steps.

What the proofs found, where code and documentation differ (the model follows the code):

- `engine/core/order_manager.py:427-480` passes the whole order to the backend, and the repository's own backends fill
  a share of the whole order (`engine/core/execution/backtest.py:61-70`), so a continuation can overfill
  (`OrderFills.WholeOrderFillOverfills`). `OrderFills.FillsExactlyIff` says exactly when a life does not, and
  `OrderFills.NeverTwiceTheQuantity` how far it can go. A fill that the portfolio refuses stays on the order
  (`OrderFills.RefusedFillsAreTheDifference`).
- `engine/core/portfolio.py:164-177` takes the same loss over again for each buy in its window
  (`WashSales.OneLossIsTakenOverTwice`); `WashSales.RunTakesOverOnceIff` says exactly when it does not.
- `engine/core/portfolio.py:221-278` accepts zero and negative quantities, and only positive ones leave a consistent book
  (`Ledger.SellKeepsBookIff`). A sale of zero shares with a fee succeeds and records a loss of quantity 0, and the next buy
  in its window divides by that quantity (`engine/core/portfolio.py:172`).
- The average cost of a position drifts from its lots (`AverageCost.AverageDrifts`, `AverageCost.SellKeepsAverageIff`).
- Two rollbacks restore the active version under a strict clock, but not whenever activations share an instant
  (`CoarseClock.CoarseClockBreaksInvolution`, `Rollback.RestoresIff`), and a strategy has at most one active version, not exactly one.
- A bar inside a drawdown episode need not be below the peak: bars that repeat the peak are inside too
  (`Drawdown.InsideIsUnderwaterIff`). The two recovery algorithms differ on the empty curve and on declining curves whose maximum drawdown
  is zero because their peaks are not positive (`Drawdown.RecoveryTimesAgreeIff`).
- Editing the last audit event together with its hash is not noticed, nor is truncation (`AuditLog.EditVerifiesIff`,
  `AuditLog.PrefixVerifies`), and two appends that overlap break the chain for good (`AuditLog.StaleAppendIff`, `AuditLog.BrokenStaysBroken`).
- A secret put while `reencrypt_all` is writing can be lost, and a deleted one can come back (`SecretRaces.PutAndDeleteAreLost`,
  `SecretRaces.LastCallSurvivesIff`).
- For an admitted call one backend reports a wait of 0 and the other 0.001 (`RetryAfter.RetriesAgreeIff`).
- A key's rate limit holds exactly while the store may hold every key in use (`RateEviction.LimitHoldsIff`).
- Rounded volumes do not compose in general (`CorpActions.RoundedVolumeComposesIff`), and the maximum drawdown of a curve with
  negative values need not be its worst pair (`Drawdown.WorstPairIff`).
- A negative velocity window, which configuration accepts, switches the velocity limit off (`RiskGate.NegativeWindowForgets`).

## Model

| member | source | states |
|---|---|---|
| `TaxLots.DeductMoves` | engine/core/portfolio.py:119-124 | taking at most a lot's quantity from it moves exactly that many shares and that cost out of the list |
| `TaxLots.ConsumeConserves` | engine/core/portfolio.py:110-135 | the consuming loop moves shares and cost from the lots to the records without loss, and stays short only of what the lots do not hold |
| `TaxLots.SaleFacts` | engine/core/portfolio.py:91-139 | a sale of no more than is held leaves nothing unfilled: records and remaining lots together keep quantity and basis, and the lots stay positive and distinct |
| `TaxLots.ConsumeRespectsOrder` | engine/core/portfolio.py:101-135 | no consumed share comes, in the order of the tax method, after a share that is left |
| `TaxLots.NothingOutOfOrder` | engine/core/portfolio.py:101-135 | FIFO sells nothing newer and LIFO nothing older than any share left, equal dates included |
| `TaxLots.TakenIsWaterfall` | engine/core/portfolio.py:110-135 | the k-th record takes from the k-th lot in order the part of the quantity that all earlier lots could not supply |
| `TaxEstimate.EstimateIsTaxOfSale` | engine/core/cost_model.py:249-285 | for every method, date, price and rates the tax estimate is that of exactly the records that selling those lots produces |
| `TaxEstimate.TaxIsRatesTimesGains` | engine/core/cost_model.py:249-285 | it is the short-term rate times the gains on shares held under 365 days plus the long-term rate times the gains on the others, losses left out, and never below zero |
| `TaxEstimate.TaxNonNegative` | engine/core/cost_model.py:249-285 | with nonnegative rates the tax of any records is not negative, so the final clamp changes nothing |
| `TaxEstimate.ComputeTax` | engine/core/cost_model.py:249-285 | the estimating loop, which stops once the quantity is covered, returns that tax: each rate on its own gains over the records a sale would produce |
| `Ledger.BuyKeepsConsistent` | engine/core/portfolio.py:141-219 | after a buy every symbol's position still has exactly the quantity of its lots, which are positive and distinct |
| `Ledger.SellKeepsConsistent` | engine/core/portfolio.py:221-278 | the same after a sell, the position being removed exactly when its last lot goes |
| `Ledger.SellSucceedsIff` | engine/core/portfolio.py:221-240 | from a consistent book a sell succeeds exactly when the shares are held; neither the no-lots nor the insufficient-lots error can occur |
| `Ledger.SellKeepsBookIff` | engine/core/portfolio.py:221-278 | the code accepts a quantity of any sign, and leaves a consistent book exactly when it is positive |
| `Ledger.SellMatchesLotsIff` | engine/core/portfolio.py:221-278 | position and lots still agree exactly when it is not negative: a sale of zero shares harms the sell history alone |
| `Ledger.BuyConserves` | engine/core/portfolio.py:141-219 | a buy unbalances cash and open basis by its wash-sale adjustment and by nothing else |
| `Ledger.SellConserves` | engine/core/portfolio.py:221-278 | a sell keeps the balance of cash, open basis and realised profit |
| `Ledger.Conservation` | engine/core/portfolio.py:91-278 | after any sequence of calls cash plus open basis is initial cash plus realised profit, less buy fees, plus all wash-sale adjustments made |
| `Ledger.HistoryReplays` | engine/core/portfolio.py:207-276 | after any sequence of calls the trade history alone gives back the cash and each position, which is the sum of its lots |
| `LedgerRecords.RunWrites` | engine/core/portfolio.py:141-278 | after any sequence of calls the trade history is exactly the buys that the cash paid for and the sales of shares held, one record each, and the cash is the opening cash plus what each of them pays or takes |
| `LedgerRecords.SaleRecordTells` | engine/core/portfolio.py:243-278 | a sale records the basis that left the open lots and the gain over basis, costs and tax |
| `LedgerRecords.RealizedIsGains` | engine/core/portfolio.py:243-278 | after any sequence of calls the realised profit is the sum of the recorded gains |
| `AverageCost.BuyKeepsAverage` | engine/core/portfolio.py:194-205 | a buy, wash-sale adjustment included, keeps average cost times quantity equal to the basis of the lots |
| `AverageCost.SellKeepsAverageIff` | engine/core/portfolio.py:243-252 | every possible partial sell of a position keeps that equality exactly if each of its lots costs the average, as the average is not rebased |
| `AverageCost.AverageDrifts` | engine/core/portfolio.py:243-252 | a run of two buys and a sell after which it does not hold |
| `WashSales.WashWithinLosses` | engine/core/portfolio.py:164-174 | a buy takes over at most the losses in its window, and all of them exactly if it covers every one of those sells |
| `WashWindow.LotPriceRaisedIff` | engine/core/portfolio.py:160-192 | a buy books its lot above the price paid exactly if some recorded sale of the symbol at a loss lies in the wash-sale days up to the buy, and else at that price |
| `WashWindow.OneLossRaisesBy` | engine/core/portfolio.py:160-192 | a single such loss raises the cost of the lot by the whole loss, or by the part of it for which the shares sold are bought back |
| `WashSales.TakenOverOnceIff` | engine/core/portfolio.py:164-177 | any buys in the window of a loss together take over no more than it exactly if there is at most one, or they buy no more shares than were sold |
| `WashSales.RunTakesOverOnceIff` | engine/core/portfolio.py:141-278 | the same of every loss that any run records, and the buys of that run which the code counts against it |
| `WashSales.RunWashIsTakenOver` | engine/core/portfolio.py:141-278 | the adjustments of a run, summed buy by buy, are what its losses have had taken over, summed loss by loss |
| `WashSales.OneLossIsTakenOverTwice` | engine/core/portfolio.py:164-177 | a run of three buys and a sell in which a loss of 50 is taken over as 100 |
| `PortfolioObject.OrderedValues` | engine/core/portfolio.py:101-108 | sorting lot objects and sorting their values is the same |
| `PortfolioObject.DeductFrom` | engine/core/portfolio.py:119-124 | decrementing the shared lot object, and removing it once used up, is the deduction on values; the list keeps its other objects |
| `PortfolioObject.ConsumeSorted` | engine/core/portfolio.py:110-135 | the loop over a sorted copy that shares the lot objects leaves the lots, records and shortfall of the value-level consumption of the initial lots |
| `PortfolioObject.Portfolio.ConsumeLotsOf` | engine/core/portfolio.py:91-139 | same records, errors and remaining lots as the ledger's consumption; other symbols' lots are untouched |
| `PortfolioObject.Portfolio.WashAdjustment` | engine/core/portfolio.py:164-177 | the loop over the sell history sums the disallowed losses of the window |
| `PortfolioObject.Portfolio.AddLot` | engine/core/portfolio.py:181-192 | a new lot object with a new id comes last in its symbol's list |
| `PortfolioObject.Portfolio.RecordBuy` | engine/core/portfolio.py:179-219 | the whole state after the bookkeeping of a buy |
| `PortfolioObject.Portfolio.RecordSale` | engine/core/portfolio.py:243-278 | the whole state after the bookkeeping of a sell |
| `PortfolioObject.Portfolio.OpenPosition` | engine/core/portfolio.py:141-219 | the object ends in the state of the ledger's buy of its old state and stays valid; a raise leaves it unchanged |
| `PortfolioObject.Portfolio.ClosePosition` | engine/core/portfolio.py:221-278 | the object ends in the state of the ledger's sell of its old state, returns its records or its error; a raise leaves it unchanged |
| `Orders.AbsorbAccounts` | engine/core/order_manager.py:327-355 | a fill adds its quantity to the filled quantity, keeps average price times quantity equal to the sum over the fills, and gives FILLED exactly when the order quantity is reached |
| `Orders.SettleMovesPosition` | engine/core/order_manager.py:357-366 | a settled fill moves the order's symbol by exactly the fill quantity and no other symbol |
| `Orders.PathFollowsPipeline` | engine/core/order_manager.py:94-103 | the status history is a connected path that has gone through validated, costed, risk-approved and submitted as far as the status says |
| `Orders.PathLength` | engine/core/order_manager.py:94-103 | up to submission the history has exactly one step per stage |
| `Orders.ProcessProgresses` | engine/core/order_manager.py:143-235 | processing a signal keeps the accounts of order and book in step and executes at most once |
| `Orders.ContinueCallProgresses` | engine/core/order_manager.py:386-480 | a continuation keeps the accounts in step and makes at most max(1, max_retries) executions |
| `Orders.LifeIsAccounted` | engine/core/order_manager.py:143-480 | after a signal and any number of continuations that return normally: filled quantity and price are those of the fills, and the position moved by exactly the filled quantity |
| `Orders.FilledOnlyThroughPipeline` | engine/core/order_manager.py:143-480 | after any such life a filled or partially filled order has passed the whole pipeline; FILLED has reached the quantity, PARTIALLY_FILLED holds some but not all of it |
| `OrderPipeline.PipelineEndsIn` | engine/core/order_manager.py:143-235 | exactly which signals end rejected, risk-rejected, failed for want of a backend, or executed, in terms of cash, shares held and cost share; only an execution touches the book |
| `OrderPipeline.ValidIffWouldSettle` | engine/core/order_manager.py:489-501 | an order is valid exactly if the ledger would settle all of it at the given price without costs |
| `OrderPipeline.QuantityIsLargest` | engine/core/order_manager.py:482-487 | a weight orders the most shares that this part of the cash pays for |
| `OrderPipeline.StopsOnlyWhenDone` | engine/core/order_manager.py:427-480 | a continuation that returns with the order still partially filled has used up all its retries |
| `OrderPipeline.CallUsesRetries` | engine/core/order_manager.py:386-480 | at the level of a call: never more than max(1, max_retries) executions, and exactly as many if the order is still partially filled |
| `OrderPipeline.ReferenceIsAverage` | engine/core/order_manager.py:440-440 | continuations are costed at the price given, or else at the average price of the fills so far |
| `OrderCash.LifePays` | engine/core/order_manager.py:143-480 | after any life the cash has paid or taken each fill at its price and every slice's costs once, a sale has realised the rest over the basis sold, and the history has one trade per slice |
| `OrderCash.SlicesAreCosted` | engine/core/order_manager.py:427-480 | the k-th slice of a continuation is costed for what the order still lacks by then |
| `OrderFills.FillsExactlyIff` | engine/core/order_manager.py:143-480 | an order holds at most its quantity after a whole life exactly if every fill was within the remainder at its time, and is then FILLED at exactly its quantity |
| `OrderFills.LifeExactIff` | engine/core/order_manager.py:143-480 | otherwise it is FILLED with more than its quantity |
| `OrderFills.NeverTwiceTheQuantity` | engine/core/order_manager.py:143-480 | with backends that fill at most the whole order at each execution, as the simulated ones do, no life reaches twice the quantity |
| `OrderFills.RefusedFillsAreTheDifference` | engine/core/order_manager.py:327-366 | through any continuations, raising ones included, the position has moved by the order's fills less exactly those the portfolio refused |
| `OrderFills.WholeOrderFillOverfills` | engine/core/order_manager.py:427-480 | a fill of the whole quantity on a partially filled order leaves it filled beyond its quantity by what it had |
| `OrderManagerObject.OrderObject.TransitionTo` | engine/core/order_manager.py:94-103 | the whole order after a transition, history entry included |
| `OrderManagerObject.OrderObject.AbsorbFill` | engine/core/order_manager.py:327-355 | the whole order after a fill is recorded |
| `OrderManagerObject.OrderManager.ReconcileFill` | engine/core/order_manager.py:296-366 | the order takes the fill first; the book then settles it or raises and stays as it was |
| `OrderManagerObject.OrderManager.ExecuteOnce` | engine/core/order_manager.py:213-221 | one execution and its reconciliation are the attempt of the value model |
| `OrderManagerObject.OrderManager.ProcessSignal` | engine/core/order_manager.py:143-235 | order, book and error are those of the pipeline on values; only an order whose execution returned is recorded as completed |
| `OrderManagerObject.OrderManager.ValidateOrder` | engine/core/order_manager.py:489-501 | valid exactly for a positive quantity that the cash covers or the position holds |
| `OrderManagerObject.OrderManager.FindOrder` | engine/core/order_manager.py:377-384 | returns a recorded order of that id, and null only if there is none |
| `OrderManagerObject.OrderManager.ContinueOrder` | engine/core/order_manager.py:386-480 | which error each refused call gives with nothing changed, and otherwise the bounded continuation of the value model; no other completed order changes |
| `OrderManagerObject.OrderManager.ContinueLoop` | engine/core/order_manager.py:427-480 | the while loop is the bounded recursion of the value model |
| `RateLimit.RateBound` | engine/api/rate_limit.py:104-127 | from a sane bucket with a nondecreasing clock at most capacity + refill * (e - s) calls are admitted in [s, e], whatever denied calls lie between |
| `RateLimit.BurstAdmitsCapacity` | engine/api/rate_limit.py:104-127 | of n calls at one instant a bucket that holds `level` tokens admits exactly min(n, level), so the bound is met |
| `RateLimit.KeysAreIndependent` | engine/api/rate_limit.py:104-143 | a key that is never evicted gets the replies it would get alone |
| `RateLimit.KeyedRateBound` | engine/api/rate_limit.py:104-143 | the window bound for such a key of a shared store, whatever the other keys do |
| `RateLimit.KeptWhileKeysFit` | engine/api/rate_limit.py:129-143 | no eviction while the distinct keys do not exceed the store's limit |
| `RateEviction.LimitHoldsIff` | engine/api/rate_limit.py:104-143 | every timed call sequence over a set of keys keeps the window bound of a key exactly if the store may hold all of them |
| `RateEviction.OneTooMany` | engine/api/rate_limit.py:129-143 | otherwise draining the key, calling the others and calling it again admits capacity + 1 calls at one instant |
| `RateRecency.StoreHoldsMostRecent` | engine/api/rate_limit.py:104-143 | after any calls the store holds exactly the keys called most recently, up to its limit, in the order of their last call |
| `RetryAfter.RetryIsExact` | engine/api/rate_limit.py:118-127 | a denied caller that calls again after the wait is let in, and one that calls sooner is not, except where the wait is clamped |
| `RetryAfter.RetryIsClamped` | engine/api/rate_limit.py:118-127 | the wait lies between 0.001 and 86400 seconds |
| `RetryAfter.NoRefillNoRetry` | engine/api/rate_limit.py:123-124 | without refill the wait is the longest, and no call after it is let in |
| `RetryAfter.LuaRetryIff` | engine/api/rate_limit.py:145-188 | the wait that the script answers is the exact boundary |
| `RetryAfter.RetriesAgreeIff` | engine/api/rate_limit.py:265-270 | from equal stored pairs the two backends report the same wait exactly for denied calls |
| `RetryAfter.RemainingIsExact` | engine/api/rate_limit.py:109-117 | an admitted caller is told exactly how many more calls at the same instant would be admitted |
| `RateLimit.SameDecisionIff` | engine/api/rate_limit.py:145-188 | from equal stored pairs memory and script decide alike, wait of denied calls included, exactly when the refilled level is not negative |
| `RateLimit.TwinsAgree` | engine/api/rate_limit.py:145-188 | on every sequence of calls and reaps of a key, with a ttl that covers the refill, decision, remaining count and the wait of denied calls agree |
| `RateLimit.TwinsStoreAlike` | engine/api/rate_limit.py:145-188 | and after it both hold the same tokens and time, or the reaped key's bucket is full again |
| `RateLimit.ExpiryUnobservableIff` | engine/api/rate_limit.py:145-188 | key expiry is unobservable on all sequences exactly when ttl * refill is at least the capacity |
| `RateLimit.InMemoryBucketBackend.Update` | engine/api/rate_limit.py:104-127 | reply and new store are those of the value model, the store stays distinct and within its limit |
| `RateLimit.InMemoryBucketBackend.Remember` | engine/api/rate_limit.py:117-127 | the key becomes the most recent one before the oldest are evicted |
| `RateLimit.InMemoryBucketBackend.EvictIfNeeded` | engine/api/rate_limit.py:129-143 | the eviction loop drops the oldest entries over the limit |
| `RateLimit.ValkeyServer.Eval` | engine/api/rate_limit.py:145-188 | the script's reply and the hash it stores, for every key state |
| `HistoricalCache.RunConsistent` | engine/data/historical_cache.py:177-259 | after any trace store and size map hold the same keys, entries never exceed the bound, and each recorded size is that of its frame and within the entry limit |
| `HistoricalCache.CountersBalance` | engine/data/historical_cache.py:177-259 | since the last clear every get counts as a hit or a miss, and every frame that came in is stored, evicted or was invalidated |
| `CacheTraffic.CountersTell` | engine/data/historical_cache.py:177-192 | hits is the number of gets since the last clear that returned a frame, misses that of the others |
| `CacheTraffic.PutIsServedIff` | engine/data/historical_cache.py:194-218 | a get right after a put returns the frame exactly if it has rows and fits the entry limit, and else what was there before |
| `HistoricalCache.HitReturnsLastAccepted` | engine/data/historical_cache.py:177-218 | a hit returns the last accepted put of its key; an oversized or empty put leaves the old frame |
| `HistoricalCache.ExactWhileKeysFit` | engine/data/historical_cache.py:177-259 | while a trace names no more keys than the bound, a get returns exactly the last accepted put or nothing |
| `HistoricalCache.StoreOrderedByUse` | engine/data/historical_cache.py:177-259 | the store lists its keys by last use, so what is evicted is the least recently used |
| `HistoricalCache.Inclusion` | engine/data/historical_cache.py:177-259 | for one trace on two caches the smaller one's recency list is a subsequence of the larger one's with equal frames |
| `HistoricalCache.SmallHitIsLargeHit` | engine/data/historical_cache.py:177-259 | hence every hit of the smaller cache is a hit of the larger with the same frame |
| `HistoricalCache.ReportedBytes` | engine/data/historical_cache.py:238-249 | the reported bytes are those of the stored frames and at most entries times the entry limit |
| `HistoricalCache.HistoricalDataCache.Get` | engine/data/historical_cache.py:177-192 | returns what is stored, refreshes recency and counts, as the value model says |
| `HistoricalCache.HistoricalDataCache.Put` | engine/data/historical_cache.py:194-218 | the whole new state, skipped puts included |
| `HistoricalCache.HistoricalDataCache.EvictLocked` | engine/data/historical_cache.py:251-259 | the eviction loop drops the oldest entries over the bound, sizes and counter with them |
| `HistoricalCache.HistoricalDataCache.Invalidate` | engine/data/historical_cache.py:220-227 | drops the key and says whether it was there |
| `HistoricalCache.HistoricalDataCache.Clear` | engine/data/historical_cache.py:229-236 | the whole state afterwards |
| `HistoricalCache.HistoricalDataCache.GetStats` | engine/data/historical_cache.py:238-249 | entries and bytes reported are those of the stored frames |
| `Versioning.EveryStateSafe` | engine/core/strategy_versioning.py:154-293 | under every interleaving of deploy, activate, rollback and retire, after each single save, the invariants of registry, locks and local snapshots hold |
| `Versioning.VersionSafety` | engine/core/strategy_versioning.py:154-293 | in every such state a strategy has at most one ACTIVE version, its numbers are exactly 1..n, and no two versions share both hashes |
| `Versioning.SaveKeepsTask` | engine/core/strategy_versioning.py:161-293 | a save under one strategy's lock leaves what every other task has read true |
| `Versioning.LatestCandidateFacts` | engine/core/strategy_versioning.py:241-253 | the rollback target was live before, is retired now, and no candidate was activated later |
| `Rollback.ActiveIsLatest` | engine/core/strategy_versioning.py:201-262 | under a strictly increasing clock the active version always carries its strategy's latest activation time |
| `Rollback.RestoresIff` | engine/core/strategy_versioning.py:226-262 | on any list, two rollbacks restore the active version exactly if it has an activation time and no third candidate was activated after it, or at the same time but deployed earlier |
| `Rollback.RollbackTwice` | engine/core/strategy_versioning.py:226-262 | so they restore it and leave every third version as it was, whenever the active version is the latest activated |
| `Rollback.RollbackIsInvolution` | engine/core/strategy_versioning.py:226-262 | from every reachable state with an active version two successful rollbacks restore that version |
| `Activation.ActivationTimeIff` | engine/core/strategy_versioning.py:201-262 | in every interleaving a version carries an activation time exactly if some step of the run made it active |
| `Activation.NeverLiveIsNeverTarget` | engine/core/strategy_versioning.py:226-262 | so whatever a rollback is about to promote is retired and was made active by an earlier step |
| `CoarseClock.CoarseClockBreaksInvolution` | engine/core/strategy_versioning.py:201-262 | a run of three deploys and three activations at one instant after which two rollbacks do not restore the active version |
| `Rollback.LoneRollback` | engine/core/strategy_versioning.py:226-262 | four uninterrupted steps of the interleaved machine carry out the rollback on the list |
| `VersionCalls.RollsBackIff` | engine/core/strategy_versioning.py:239-253 | there is a rollback exactly if some version was live and is retired |
| `VersionCalls.RollbackTells` | engine/core/strategy_versioning.py:239-262 | it retires the active version, activates the one last live (the earliest listed of several) and changes no other record |
| `VersionCalls.LoneRetire` | engine/core/strategy_versioning.py:264-293 | an uninterrupted retirement of the interleaved machine marks that version and changes nothing else, an active one only with consent |
| `VersionCalls.LoneRedeploy` | engine/core/strategy_versioning.py:164-196 | an uninterrupted deployment of known hashes changes nothing |
| `VersionService.InMemoryStrategyRegistry.Save` | engine/core/strategy_versioning.py:104-107 | the whole registry after a save |
| `VersionService.InMemoryStrategyRegistry.ListForStrategy` | engine/core/strategy_versioning.py:109-111 | the stored versions of a strategy in order of deployment |
| `VersionService.InMemoryStrategyRegistry.FindByHashes` | engine/core/strategy_versioning.py:113-119 | the first version of the strategy with both hashes |
| `VersionService.StrategyVersionService.Deploy` | engine/core/strategy_versioning.py:164-196 | known hashes give the stored version and change nothing, otherwise the next number is appended as a draft; no other strategy changes |
| `VersionService.StrategyVersionService.Activate` | engine/core/strategy_versioning.py:201-224 | errors exactly for unknown and retired versions; afterwards exactly the activated version is active, only statuses and its time changed, and no other strategy |
| `VersionService.StrategyVersionService.RollBack` | engine/core/strategy_versioning.py:226-262 | succeeds exactly when there is a candidate, leaves the list of the rollback function, returns the version that is active now, and changes no other strategy |
| `VersionService.StrategyVersionService.Retire` | engine/core/strategy_versioning.py:264-293 | an active version is retired only with consent; nothing else changes, in this strategy or another |
| `Sessions.SaveIndexedIff` | engine/api/sessions.py:133-145 | saving a new session keeps the two indexes in agreement exactly when the store cap is positive |
| `Sessions.EveryStateSafe` | engine/api/sessions.py:178-268 | under every interleaving of create, touch, revoke and revoke-all, after each single save, the invariants of store, locks and snapshots hold |
| `Sessions.SessionSafety` | engine/api/sessions.py:178-268 | in every such state a user has at most max_concurrent unrevoked sessions, a list within the store cap, and indexes that agree |
| `Sessions.RevokedStaysRevoked` | engine/api/sessions.py:178-268 | a session once revoked or dropped is never live again, whatever happens later |
| `Sessions.LocalOk` | engine/api/sessions.py:178-268 | each step of each task keeps the caps, revives nothing and leaves its own snapshots true |
| `SessionCalls.NoUseAfterTimeout` | engine/api/sessions.py:212-233 | in every interleaving no stored session was used after its absolute timeout |
| `SessionCalls.LoneCreate` | engine/api/sessions.py:178-207 | an uninterrupted create saves the new session below the cap, first revokes the oldest live one at the cap, and saves nothing if the cap admits nobody |
| `SessionCalls.LoneTouch` | engine/api/sessions.py:212-233 | an uninterrupted touch moves only the activity time, and of a revoked or timed out session nothing |
| `SessionCalls.LoneRevoke` | engine/api/sessions.py:235-243 | an uninterrupted revoke marks that session and changes nothing else |
| `SessionCalls.LoneRevokeAll` | engine/api/sessions.py:245-253 | an uninterrupted revoke-all marks every session of the user and no other |
| `SessionServiceObject.InMemorySessionStore.Save` | engine/api/sessions.py:133-141 | the whole store after a save, dropped oldest sessions included |
| `SessionServiceObject.InMemorySessionStore.ListForUser` | engine/api/sessions.py:143-145 | the user's stored sessions in order |
| `SessionServiceObject.OldestLiveAt` | engine/api/sessions.py:259-268 | the session min() picks is the first unrevoked one of the smallest creation time |
| `SessionServiceObject.SessionService.EvictToMakeRoom` | engine/api/sessions.py:259-268 | below the cap nothing changes; at it exactly the oldest live session is revoked; it raises exactly when the cap is not positive |
| `SessionServiceObject.SessionService.Create` | engine/api/sessions.py:178-207 | the user's list is the old one with room made, what exceeds the store cap dropped, and the new session last; no other user changes |
| `SessionServiceObject.SessionService.Touch` | engine/api/sessions.py:212-233 | succeeds exactly for a stored, unrevoked session within both timeouts and then moves only its activity time |
| `SessionServiceObject.SessionService.Revoke` | engine/api/sessions.py:235-243 | revokes that session and changes nothing else |
| `SessionServiceObject.SessionService.RevokeAllForUser` | engine/api/sessions.py:245-253 | revokes every session of the user, no other, and counts those that were live |
| `CapitalAllocation.ApportionIsHamilton` | engine/core/capital_allocation.py:141-174 | for every mapping with a positive weight sum the cents sum exactly to the total, each strategy gets the floor of its quota or one more, and nobody is passed over |
| `CapitalAllocation.HamiltonIsUnique` | engine/core/capital_allocation.py:141-174 | there is only one such assignment |
| `CapitalAllocation.OrderIrrelevant` | engine/core/capital_allocation.py:141-174 | the same items in another order give the same amounts or fail together |
| `CapitalAllocation.RemainderBelowFractions` | engine/core/capital_allocation.py:155-161 | the remainder is below the number of strategies with a nonzero fraction, or both are zero |
| `CapitalAllocation.WholeQuotaIsExact` | engine/core/capital_allocation.py:148-169 | a strategy whose quota is whole gets exactly it, so a zero weight gets nothing |
| `CapitalAllocation.HeavierGetsNoLess` | engine/core/capital_allocation.py:148-169 | a heavier strategy never gets less than a lighter one |
| `AllocationTies.StrLeIff` | engine/core/capital_allocation.py:166-169 | the order that breaks ties is the lexicographic one |
| `AllocationTies.TiesGoByName` | engine/core/capital_allocation.py:166-169 | of two equal weights the one whose id comes first gets no less, and at most a cent more |
| `AllocationTies.GivesWholeCents` | engine/core/capital_allocation.py:146-147 | the cents given out are the capital down to the last whole cent |
| `AllocationTies.ErrorsTell` | engine/core/capital_allocation.py:105-142 | which inputs give which error, and that the first negative weight is the one named |
| `CapitalAllocation.SucceedsIff` | engine/core/capital_allocation.py:104-161 | exactly which inputs succeed; the out-of-range branch is never taken |
| `CapitalAllocation.AllocateIsHamilton` | engine/core/capital_allocation.py:74-175 | a successful call on a nonempty mapping returns the apportionment of the floored total |
| `CapitalAllocation.AllocateCapital` | engine/core/capital_allocation.py:74-175 | the validating loops return the error or the dollar amounts of the specification |
| `CapitalAllocation.ApportionCents` | engine/core/capital_allocation.py:145-169 | the loops compute the specified cents, which are the largest-remainder apportionment |
| `CapitalAllocation.FloorCents` | engine/core/capital_allocation.py:145-153 | floors by strategy and their sum |
| `CapitalAllocation.GiveCents` | engine/core/capital_allocation.py:166-169 | one cent more for exactly the first strategies of the ranking |
| `CapitalAllocation.AllocationTotal` | engine/core/capital_allocation.py:177-180 | the amounts of an allocation add up to its cents, in any order |
| `Hrp.OrderIsPermutation` | engine/core/portfolio_optimizer.py:150-175 | the merge loop keeps a partition of the assets, so the order holds each exactly once |
| `Hrp.ClustersStayTogether` | engine/core/portfolio_optimizer.py:163-175 | every cluster the loop ever formed is a contiguous block of the final order |
| `Hrp.MergeHeightsNondecreasing` | engine/core/portfolio_optimizer.py:163-175 | for a symmetric distance the distance of the merged pair never decreases |
| `Hrp.StagesAreSingleLinkage` | engine/core/portfolio_optimizer.py:150-175 | after each merge every cluster is held together by links up to that merge's distance and the clusters are at least that far apart |
| `Hrp.FirstClosestTells` | engine/core/portfolio_optimizer.py:164-170 | that pair is no farther apart than any, and strictly closer than every pair scanned before it |
| `Hrp.ClosestPair` | engine/core/portfolio_optimizer.py:164-170 | the nested scan returns the closest pair, the first of those in scan order |
| `Hrp.QuasiDiagOrder` | engine/core/portfolio_optimizer.py:150-175 | the returned order is a permutation and the last state of a history of closest-pair merges |
| `Hrp.AlphaFacts` | engine/core/portfolio_optimizer.py:199-201 | the split fraction is strictly between 0 and 1 and equalises weight times variance |
| `Hrp.SharePositive` | engine/core/portfolio_optimizer.py:189-207 | for positive variances every weight is strictly positive |
| `Hrp.OnlyBalancedWeights` | engine/core/portfolio_optimizer.py:189-207 | the bisection's weights are exactly the weights that sum to one with weight times variance equal on both sides of every split |
| `Hrp.SplitsInHalf` | engine/core/portfolio_optimizer.py:197-198 | a cluster is split in order into halves that differ by at most one asset, the odd one going right |
| `Hrp.EqualVariancesHalve` | engine/core/portfolio_optimizer.py:189-207 | with equal variances each of n assets gets one 2^k-th or half of it, where 2^k <= n <= 2^(k+1) |
| `Hrp.PowerOfTwoIsEqual` | engine/core/portfolio_optimizer.py:189-207 | so 2^k assets of equal variance get one 2^k-th each |
| `Hrp.SplitKeepsProduct` | engine/core/portfolio_optimizer.py:193-206 | one round of the stack loop leaves what each asset will end up with unchanged |
| `Hrp.Scale` | engine/core/portfolio_optimizer.py:202-205 | the in-place loop multiplies exactly the weights of the cluster, each once |
| `Hrp.SplitCluster` | engine/core/portfolio_optimizer.py:197-205 | left half times alpha, right half times the rest, nothing else |
| `Hrp.RecursiveBisection` | engine/core/portfolio_optimizer.py:189-207 | the stack loop ends and each weight is the product of the split fractions on its path |
| `Hrp.SumOfWeights` | engine/core/portfolio_optimizer.py:223-223 | the sum over all assets |
| `Hrp.HierarchicalRiskParity` | engine/core/portfolio_optimizer.py:210-227 | succeeds for at least one asset with positive weights that sum to exactly one and balance every split of a single-linkage order, so normalising changes nothing; with equal variances n assets get a 2^k-th or half of it, 2^k <= n <= 2^(k+1) |
| `Drawdown.EpisodesAreEpisodes` | engine/core/drawdown_analytics.py:90-143 | every listed episode has its peak, first deepest trough and first recovery, and episodes follow one another |
| `Drawdown.UnderwaterInExactlyOne` | engine/core/drawdown_analytics.py:90-143 | every bar below the running peak lies strictly inside exactly one episode, no bar in two |
| `Drawdown.InsideIsUnderwaterIff` | engine/core/drawdown_analytics.py:90-143 | a bar inside an episode is underwater exactly if it does not repeat the peak |
| `Drawdown.NoEpisodesIff` | engine/core/drawdown_analytics.py:90-143 | there is no episode exactly on nondecreasing curves |
| `Drawdown.DeepestIsMaxDrawdown` | engine/core/drawdown_analytics.py:90-143 | the deepest episode is the maximum drawdown, on every curve |
| `Drawdown.WorstPairIff` | engine/core/metrics.py:451-460 | on curves that start above zero it bounds every later loss (v_i - v_j) / v_i from a positive value exactly if the decline to each negative bar from the smallest positive value before it is within it |
| `Drawdown.MaxDrawdownIsWorstPair` | engine/core/metrics.py:451-460 | so it is the maximum of those losses on every curve without negative values |
| `Drawdown.NegativeValueBreaksWorstPair` | engine/core/metrics.py:451-460 | a curve on which a pair loses more |
| `Drawdown.TroughIsArgMax` | engine/core/metrics.py:266-285 | the drawdown curve first reaches its maximum at the trough of the first deepest episode |
| `Drawdown.RecoveryTimesAgreeIff` | engine/core/drawdown_analytics.py:156-170 | the two recovery algorithms agree exactly on nonempty curves that never decline or whose maximum drawdown is positive |
| `Drawdown.RecoveryTimesAgreeOnPositiveStart` | engine/core/drawdown_analytics.py:156-170 | so on every nonempty curve that starts above zero |
| `Drawdown.DrawdownEpisodes` | engine/core/drawdown_analytics.py:90-143 | the single pass returns the specified episodes, each underwater bar in exactly one |
| `Drawdown.ComputeMaxDrawdown` | engine/core/metrics.py:451-460 | 100 times the depth of the deepest episode |
| `Drawdown.ComputeCurves` | engine/core/metrics.py:192-201 | the drawdown curve, and the underwater curve as its negative |
| `Drawdown.RecoverFromMaxDrawdown` | engine/core/metrics.py:266-285 | the recovery scan on a drawdown curve |
| `RiskGate.VelocityBound` | engine/core/risk_limits.py:228-240 | with a nondecreasing clock and a nonnegative window any interval as long as the window holds at most max(0, limit) approved orders |
| `RiskGate.NegativeWindowForgets` | engine/core/risk_limits.py:228-240 | with a negative window the velocity limit acts exactly if it is zero or less |
| `RiskGate.NoApprovalWhileTripped` | engine/core/risk_limits.py:177-196 | no order is approved from a breaker trip to the next reset |
| `RiskGate.TrippedIff` | engine/core/risk_limits.py:177-196 | the breaker is on exactly if some check tripped it and no reset came after |
| `RiskDecisions.TrippedByLossIff` | engine/core/risk_limits.py:186-196 | the breaker is on exactly if some check since the last reset found the day's loss at or beyond its limit |
| `RiskDecisions.LossStopsOrders` | engine/core/risk_limits.py:186-196 | from such a check to the next reset nothing is approved |
| `RiskDecisions.ApprovedIff` | engine/core/risk_limits.py:185-245 | an order is approved exactly if the breaker is off, the loss short of its limit, its size and what it adds to within their caps, shares taken of the total value, and it is not too fast |
| `RiskDecisions.TooFastIff` | engine/core/risk_limits.py:228-240 | under a nondecreasing clock an order is too fast exactly if as many as the limit were approved in the window up to now |
| `RiskGate.RiskGateObject.ResetCircuitBreaker` | engine/core/risk_limits.py:177-179 | only the breaker changes |
| `RiskGate.RiskGateObject.OrderBreaches` | engine/core/risk_limits.py:197-223 | lists exactly the order and exposure limits that are broken |
| `RiskGate.RiskGateObject.Check` | engine/core/risk_limits.py:185-245 | lists exactly the broken limits, approves when there are none, and leaves the stated gate |
| `Secrets.ReencryptKeepsReads` | engine/core/secrets.py:220-270 | whatever write a re-encryption stops after, every name reads as before and keeps its creation time |
| `Secrets.AbortedIff` | engine/core/secrets.py:244-262 | it aborts exactly if some stored secret is unreadable, and then changes nothing |
| `Secrets.ReencryptDrains` | engine/core/secrets.py:262-270 | run to its end it leaves no record under the previous key |
| `Secrets.DropSafeIff` | engine/core/secrets.py:216-218 | dropping the previous key changes no read exactly if no record needs that key |
| `Secrets.EverySecretSurvives` | engine/core/secrets.py:157-270 | over every run in which drops follow a completed re-encryption each name reads the last value put, and re-encryption never aborts |
| `SecretRecords.DatesFromFirstPut` | engine/core/secrets.py:157-270 | after any calls a name holds a secret exactly if it was put and not deleted since, and the record dates from the first such put |
| `Secrets.CarelessDropLoses` | engine/core/secrets.py:216-218 | rotating and dropping at once makes a secret unreadable |
| `SecretRaces.LastCallSurvivesIff` | engine/core/secrets.py:157-270 | with puts, deletes and write-backs overlapping in any order, the last put or delete of a name survives exactly if it does not fall between the snapshot and that name's write-back, or asks for what the snapshot holds |
| `SecretRaces.UntouchedSurvives` | engine/core/secrets.py:220-270 | a name that no overlapping call touches reads as before |
| `SecretRaces.UndisturbedIsReencrypt` | engine/core/secrets.py:220-270 | without overlapping calls this is the re-encryption of the other theorems |
| `SecretRaces.CallIsLost` | engine/core/secrets.py:244-270 | from every state, a put or delete right after the snapshot that asks for something else than is stored is lost |
| `SecretRaces.PutAndDeleteAreLost` | engine/core/secrets.py:244-270 | a run that loses a put and one that undoes a delete |
| `Secrets.SecretsService.PutSecret` | engine/core/secrets.py:157-173 | errors for empty value and name, otherwise the record under the current key with its first creation time |
| `Secrets.SecretsService.GetSecret` | engine/core/secrets.py:175-185 | absent, decrypted with either key, or token invalid |
| `Secrets.SecretsService.DeleteSecret` | engine/core/secrets.py:187-189 | the whole state afterwards |
| `Secrets.SecretsService.RotateMasterKey` | engine/core/secrets.py:194-214 | refused exactly while a previous key is held |
| `Secrets.SecretsService.DropPreviousKey` | engine/core/secrets.py:216-218 | only the previous key goes |
| `Secrets.SecretsService.OpenRecords` | engine/core/secrets.py:244-256 | the plaintexts and the number of failures, with nothing written |
| `Secrets.SecretsService.ReencryptAll` | engine/core/secrets.py:220-270 | the result, the final state and the state after each single write, in all of which every name reads as before |
| `AuditLog.AppendedVerifies` | engine/core/audit_log.py:140-176 | every log that one appender builds verifies |
| `AuditRecords.LogIsTheRequests` | engine/core/audit_log.py:140-176 | it holds exactly the requests that name an event type and an actor, in order, each with its fields, number, time, digest and link |
| `AuditLog.PrefixVerifies` | engine/core/audit_log.py:178-199 | every prefix of a verifying log verifies, so truncation is not noticed |
| `AuditLog.StaleAppendIff` | engine/core/audit_log.py:140-176 | an append written after others than it read keeps the log verifying exactly if nothing came between |
| `AuditLog.BrokenStaysBroken` | engine/core/audit_log.py:178-199 | a log that does not verify never will again by appending |
| `AuditLog.LastHashCommits` | engine/core/audit_log.py:89-127 | with an injective hash two verifying logs with equal last hash have equal length and hashed fields |
| `AuditLog.IdIsNotHashed` | engine/core/audit_log.py:109-127 | identifiers can change without notice |
| `AuditLog.EditVerifiesIff` | engine/core/audit_log.py:178-199 | replacing one event keeps the log verifying exactly if its hashed fields and hash stay, or it is the last one and is itself a proper continuation |
| `AuditLog.BySequenceIsPosition` | engine/core/audit_log.py:76-80 | in a verifying log the event of sequence n is the n-th |
| `AuditLog.InMemoryAuditLog.GetBySequence` | engine/core/audit_log.py:76-80 | the search loop finds that event |
| `AuditLog.AuditService.AppendEvent` | engine/core/audit_log.py:140-176 | errors for blank fields, otherwise the linked event is appended and a verifying log stays so |
| `AuditLog.AuditService.VerifyChain` | engine/core/audit_log.py:178-199 | true exactly for logs all of whose links are right |
| `CorpActions.AdjustmentComposes` | engine/core/corp_actions.py:198-250 | adjusting to b and from b to c is adjusting to c, for prices and for unrounded volume multipliers |
| `CorpActions.InsertionOrderIrrelevant` | engine/core/corp_actions.py:181-195 | the order of the log does not matter |
| `CorpActions.OutsideWindowIsIgnored` | engine/core/corp_actions.py:188-195 | an action outside (bar, as-of], or of another symbol, changes nothing: no look-ahead |
| `CorpActions.ValueIdentity` | engine/core/corp_actions.py:198-280 | price factor times volume multiplier is the product of the applicable dividend and spinoff factors, and both are positive |
| `ActionEffects.ActionAdjusts` | engine/core/corp_actions.py:198-280 | what one more logged action does: a split or merger divides the price and multiplies the volume by its ratio, a spinoff scales the price, a dividend takes its part out of the close, anything else or outside the window changes nothing |
| `ActionEffects.NoActionsNoChange` | engine/core/corp_actions.py:198-280 | without actions price and volume stay |
| `CorpActions.StructuralReciprocal` | engine/core/corp_actions.py:253-280 | without those the multiplier is the reciprocal of the factor |
| `CorpActions.RoundIsNearest` | engine/core/corp_actions.py:280-280 | round() gives a nearest integer, the even one on ties |
| `CorpActions.WholeVolumeComposes` | engine/core/corp_actions.py:253-280 | rounded volumes compose at b when the volume there is whole before rounding |
| `CorpActions.RoundedVolumeComposesIff` | engine/core/corp_actions.py:253-280 | and they compose whatever split comes next only then |
| `CorpActions.WindowProduct` | engine/core/corp_actions.py:181-195 | filtering, sorting and windowing leave the product over the unordered log |
| `CorpActions.CorporateActionLog.AdjustPrice` | engine/core/corp_actions.py:198-250 | the loop over the sorted window computes price times the product over the log |
| `CorpActions.CorporateActionLog.AdjustVolume` | engine/core/corp_actions.py:253-280 | likewise for volume, rounded once |

## Left out

- Rounding of floats and of 28-digit `Decimal`: values are exact reals; `round()` to a whole volume is modelled.
- Non-finite numbers, booleans passed as numbers, and other type checks at construction.
- HTTP, authentication, brokers, data providers, database and Valkey clients, the client's retry path, logging, metrics and event publishing: wiring around the cores.
- SHA-256 and Fernet: an injective digest, and encryption that only the matching key opens; JSON canonicalisation and redaction stand behind the payload text.
- Ids and tokens: numbers supplied by the caller, required to be new.
- Ledger.BuyKeepsConsistent: buys are of positive quantities; a buy of zero or fewer shares divides by zero or leaves a lot no sale can consume, and the order pipeline never makes one.
- Orders.LifeIsAccounted: assumes that a successful fill has a positive quantity, which the repository's backends guarantee; costs, tax and risk approval are inputs.
- OrderManagerObject.OrderManager.ProcessSignal: works on the ledger's value rather than on the `Portfolio` object, so aliasing between the two is not modelled.
- Sections of `cost_model.py` other than the tax estimate, and closed-form statistics: single formulas.
- RateLimit.TwinsAgree: the wait of admitted calls is not compared: one backend reports 0, the other 0.001 (`RetryAfter.RetriesAgreeIff`).
- Key digests and file fingerprints of the cache: keys are opaque strings. Thread locks make each cache and risk-gate call atomic.
- VersionService.StrategyVersionService.Deploy: size and shape checks of code and configuration are not modelled; hashes are inputs.
- SessionServiceObject.SessionService.Create: input length checks and the hashing of address and agent are not modelled.
- Sessions.SessionSafety: needs a store cap of at least one, which the constructor does not check (`Sessions.SaveIndexedIff`).
- Hrp.HierarchicalRiskParity: the correlation distance and the cluster variance are abstract, the latter positive on every nonempty cluster; matrix validation beyond the empty case is not modelled.
- Hrp.StagesAreSingleLinkage: needs a symmetric distance, which a covariance matrix gives but the code does not check.
- CapitalAllocation.AllocateCapital: the iteration order of the returned mapping is not modelled.
- Secrets.EverySecretSurvives: calls do not overlap, apart from a re-encryption cut short after any write; puts and deletes that overlap one are the subject of `SecretRaces.LastCallSurvivesIff`. Names are in canonical form.
- AuditLog.AuditService.AppendEvent: blank means spaces, tabs and line breaks only.
- CorpActions.CorporateActionLog.AdjustPrice: actions are those construction accepts; the constructor's error messages are not modelled.
- Lifecycle gates, retention, walk-forward splits and streaks are not modelled.
