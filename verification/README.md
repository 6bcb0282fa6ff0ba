# Veltrix correctness pipeline: a verified model

Veltrix drives a contestant's matching engine with a load generator, records everything that was sent and answered,
and lets the artifact checker decide `correct | incorrect | unverified`. Its promise is never to fail correct code and
never to pass silently what was not checked. This project models the parts that promise rests on and proves what it
amounts to.

`dafny verify dfyconfig.toml` checks the whole project.

## Layout

| files | what they model |
|---|---|
| `MarketTypes`, `RankedBook`, `BookLaws` | the shared vocabulary; the order book as two ranked lists, and what one operation does |
| `PriceLevels`, `OrderBook` | the golden model: a mutable book of price levels, proved against the ranked lists |
| `PriceTime`, `BookRuns` | the textbook's list of arrivals, which the ranked lists refine; invariants and conservation over whole runs |
| `Differential`, `ReplaySpec`, `ReplayEngine` | comparing one order; the replay as a fold; the replay as loops over mutable books |
| `VerdictLaws`, `ReplayLaws`, `ReplayChoices`, `MapWalks` | what each verdict means exactly; reordering, redelivery, gaps, taint; when the order in which a map of books is walked decides anything |
| `Writer`, `StreamComplete`, `DeliveryOrder` | the sequence-stamping writer with its flush timer, what its numbering buys the checker, and what its batches do to the end marker |
| `Contestant`, `Soundness`, `SoundnessTheorems`, `HiddenCancel` | an honest contestant, its books in lockstep with the checker's, and where the promise ends |
| `LossyRuns` | what lost answers cost an honest contestant |
| `OrderlyRuns`, `PriceSpans`, `PartialRuns` | the converse: what the verdict on a run, or on any part of one, says about a contestant that may report anything |
| `ReferenceSpec`, `EnginesAgree`, `ReferenceEngine`, `SampleServer`, `ServerRegistry`, `MarketRemainder` | the sample server's insert-then-cross engine, as lists and as a mutable book; its agreement with the golden model; its HTTP face and what its cancels find; where it fails the check |
| `EventHeap`, `Reordering`, `Watermark`, `StableSort`, `ReorderTheorems` | the event-time reorder buffer on an explicit binary heap, and when it is a stable sort |
| `EngineSpec`, `EngineTheorems`, `EngineRun`, `RouterLoop`, `Pipeline`, `PipelineTheorems`, `PipelineProgress` | the engine's main loop and workers, the router and its processors, all interleaved |
| `Histogram`, `HistogramLaws` | latency buckets, their merge and the percentiles read off them |

Code that updates state in place is a class or a method with loops, proved equal to a function; the theorems are about
those functions. The concurrent parts (router, processors, engine, workers) are state machines: a sequence of moves is
one interleaving, and a move that is not enabled changes nothing, so a statement about every sequence is a statement
about every schedule.

## Main results

* **Golden model.** The price-level book refines a ranked list, which refines the plain list of arrivals in which each
  trade goes to the unique best-priced, earliest order. Over whole runs the book stays sorted, uncrossed and positive,
  the index stays exact, a fill-or-kill order is all or nothing, and every unit of quantity is accounted for.
* **Soundness.** Whatever part of an honest contestant's stream arrives, in any order, however often, with any orders
  of unknown outcome applied or not, the verdict is never `incorrect`; a complete stream without unknowns is `correct`.
  One kind of exchange is excluded: a cancel that took effect while its answer was lost, of an order resting on a ticker
  without other losses. The exclusion is exact: when an honest run without one is extended by one exchange, it is safe
  from then on, whatever honest exchanges without another such cancel follow and whatever part of its stream arrives, if
  and only if that exchange is not such a cancel. `HiddenCancelHappens` gives a run of three exchanges that is convicted.
* **Completeness.** For a contestant that may report anything, a complete run without unknown outcomes is `correct` if
  and only if for every accepted order the reported makers are known and the report agrees with the golden trades on the
  run's own book, and no cancel was answered with trades that belong to no accepted order; `incorrect` is characterised
  as exactly, and one fill priced beyond both the order it names and its own order's end of the band is enough. However
  long a contestant was honest, its first wrong report about known makers convicts it.
* **Nothing passes unchecked.** For a contestant that may report anything, and any part of its stream, `correct` means
  exactly this: the end marker is in, fewer than a twentieth as many records are missing or unknown as attempts are on
  record (or nothing was attempted and nothing is missing), every received fill is of an order on record, and every order
  on record was reported as the golden rules match it on the book of the requests on record.
* **Losses.** The complete stream of an honest run that accepts no order behind a loss on its ticker is `correct` if and
  only if fewer than one in twenty outcomes are unknown.
* **Verdicts.** On every event list, and whichever book each cancel happens to meet first, `incorrect` and `correct` are
  characterised by if-and-only-if statements. When each sequence number stands for one event, which verdicts are
  possible is a function of the set of events. The walk over the books leaves the replay no choice at any point if and
  only if no event cancels an order that is live in two books; then exactly one verdict is possible.
* **Two engines.** On every order of every type for a positive quantity the sample server makes the golden trades; it
  ends in the golden book if and only if the order is not a market order or a crossing fill-and-kill order left with a
  remainder. Short of market orders with a remainder nothing the server is asked ever gets it judged `incorrect`, the
  engines it locks up included, and its complete stream is `correct` if and only if fewer than one in twenty requests got
  no answer (or none was sent). On tickers it has not locked up its registry holds exactly the resting orders, so a cancel
  is answered 200 if and only if it names one. After such a run and one more request every next request is safe if and
  only if that one was not a market order with a remainder.
* **Reordering.** The processor's output is the stable sort of its input if and only if every event that arrives behind
  a newer one arrives while that newer one is still held back, which is stated on timestamps, lateness and the places of
  idle timeouts and end markers alone.
* **Pipeline.** In every interleaving each submission the router was given gets exactly one verdict once the channel
  closes; it is the replay of exactly its own events if its end marker is routed last with the largest timestamp; and no
  interleaving ever judges an honest submission `incorrect`, with no assumption on order or time. Every input can be
  brought through: once it is closed some move always brings the close of the updates channel nearer and none leads away.
* **Latency.** Bucketing commutes with percentiles: what is reported is the bucket of the true nearest-rank sample of
  everything recorded on any threads, stated on the times and the percentage themselves.

## Where the code and its documents differ

The model follows the code.

* The matching contract under `veltrix/docs` says an `UNKNOWN` attempt or a gap makes the run unverified. The code does
  that only from 5% of the attempts on (`engine.go:226-229`, `423-442`); `ReplayIsCorrectIff` states the exact condition,
  `ClearRunIsCorrectIff` what it means for an honest run, and `LossIsForgiven` gives an instance.
* The same contract and the comment at `test/main.cpp:546-548` say a market remainder is cancelled. The order is
  retyped at `test/main.cpp:501-518` before that test, so the remainder rests; `SampleKeepsMarketRemainder` gives an
  instance, `RemainderTradesNext` a trade that follows from it and that the golden model does not make, and
  `MarketRemainderConvicts` the verdict it leads to after any run.
* A fill-and-kill remainder makes `MatchOrders` call `CancelOrder`, which locks the mutex `AddOrder` already holds
  (`test/main.cpp:454-469`, `496`, `557`). `stuck` records this; `SampleDeadlocksOnRemainder` gives an instance.
* A cancel of unknown outcome carries no ticker and taints none (`engine.go:267-270`), although the document promises
  that no lost answer turns into a false failure; `HiddenCancelConvicts` states what follows.
* A replayed cancel stops at the first book, in map order, that has the order (`engine.go:330-338`), so with an order id
  accepted on two tickers the verdict may differ from run to run. `TwoVerdicts` gives such events, `MayFinalize` is the set
  of verdicts there can be, and `OneStateIffNeverSplits` says exactly when the walk decides nothing.
* Each batch of the worker is published orders first (`grpcserver/server.go:66-73`), so the last one's trades come behind
  the end marker although the marker is meant to be last; `TradesBehindMarker` states what an engine that reads them in
  that order says.
* An order for quantity 0 changes nothing in the golden model; the sample server trades or rests it
  (`ZeroQuantityOrder`). The load generator sends none.

## Model

| member | source | states |
|---|---|---|
| `GoldenBook.OrderBook.constructor` | veltrix/artifact-checker/internal/replayengine/engine.go:588-590 | a fresh book is empty and well formed |
| `GoldenBook.OrderBook.Submit` | veltrix/artifact-checker/internal/replayengine/engine.go:605-626 | for every input and every well-formed price-level book, the trades and the whole new book are those of the ranked list; well-formedness is kept |
| `GoldenBook.OrderBook.Match` | veltrix/artifact-checker/internal/replayengine/engine.go:628-690 | matching consumes the opposing ranked list greedily; the own side is untouched and exactly the filled orders leave the index |
| `GoldenBook.OrderBook.SweepLevels` | veltrix/artifact-checker/internal/replayengine/engine.go:649-688 | the level-by-level loop, both sides at once: trades, remaining levels, remaining quantity and index all equal the sweep of the flat list |
| `GoldenBook.OrderBook.CanFullyFill` | veltrix/artifact-checker/internal/replayengine/engine.go:692-715 | true exactly when nothing is asked for or the acceptable opposing depth covers the quantity |
| `GoldenBook.OrderBook.Rest` | veltrix/artifact-checker/internal/replayengine/engine.go:717-724 | the order rests behind every order at least as good and is indexed at its side and price |
| `GoldenBook.OrderBook.InsertLevel` | veltrix/artifact-checker/internal/replayengine/engine.go:760-778 | levels stay strictly ordered and non-empty, and the list they denote gains the order at its price-time place |
| `GoldenBook.OrderBook.CancelById` | veltrix/artifact-checker/internal/replayengine/engine.go:726-753 | removes exactly the indexed order, reports whether there was one, and otherwise changes nothing |
| `BookRuns.RunIsSound` | veltrix/artifact-checker/internal/replayengine/engine.go:567-778 | over every run of orders and cancels, ids repeated or not: positive quantities, both sides in rank, best bid below best ask |
| `BookRuns.RunIndexIsExact` | veltrix/artifact-checker/internal/replayengine/engine.go:567-590 | over every run with fresh ids the index is in exact bijection with the resting orders, each at its side and price |
| `BookRuns.RunIsPriceTime` | veltrix/artifact-checker/internal/replayengine/engine.go:605-755 | at every point of every run the book is the ranked form of the textbook's plain arrival list, and the next operation makes the textbook's trades |
| `PriceTime.BestIsUnique` | veltrix/artifact-checker/internal/replayengine/engine.go:557-580 | at most one resting order has price-time priority over all others |
| `PriceTime.SweepRefinesText` | veltrix/artifact-checker/internal/replayengine/engine.go:628-690 | sweeping the ranked list is taking the unique best, earliest order of the arrival list again and again |
| `PriceTime.SubmitIsPriceTime` | veltrix/artifact-checker/internal/replayengine/engine.go:605-724 | one order keeps the refinement of the arrival list and trades alike |
| `PriceTime.CancelIsPriceTime` | veltrix/artifact-checker/internal/replayengine/engine.go:726-753 | one cancel keeps the refinement |
| `BookLaws.SweepTrades` | veltrix/artifact-checker/internal/replayengine/engine.go:649-688 | the i-th trade is with the i-th ranked order at an acceptable price; every maker but the last is taken whole |
| `BookLaws.SweepBook` | veltrix/artifact-checker/internal/replayengine/engine.go:649-688 | what stays is the list without its first n orders, the next one possibly reduced, and only when the aggressor is filled |
| `BookLaws.SweepLeavesShortfall` | veltrix/artifact-checker/internal/replayengine/engine.go:692-715 | what a sweep leaves unfilled is exactly the shortfall of acceptable depth |
| `BookLaws.MakersDoNotRepeat` | veltrix/artifact-checker/internal/replayengine/engine.go:628-690 | one order never trades twice with the same maker |
| `BookRuns.FillOrKillIsAllOrNothing` | veltrix/artifact-checker/internal/replayengine/engine.go:605-626 | the depth test holds exactly when matching would leave nothing; the order fills in full or changes nothing, and never rests |
| `BookRuns.TradePricesAreFair` | veltrix/artifact-checker/internal/replayengine/engine.go:628-690 | every trade names the price its maker rests at; a limit order's never lies beyond its own limit, and a market order's end of the band is the worst opposing price on arrival |
| `BookRuns.UsesDepth` | veltrix/artifact-checker/internal/replayengine/engine.go:628-715 | an order trades all the acceptable depth it can use, but for a fill-or-kill order that cannot be filled, which trades nothing |
| `BookRuns.WhatRests` | veltrix/artifact-checker/internal/replayengine/engine.go:605-626 | of what an order could not trade a market, fill-and-kill or fill-or-kill order leaves nothing in the book; any other order, of a type the model does not know too, rests with exactly that at its own price |
| `BookRuns.RankedPrices` | veltrix/artifact-checker/internal/replayengine/engine.go:760-778 | in plain prices: along a ranked side bids never rise and asks never fall |
| `BookRuns.QuantityIsConserved` | veltrix/artifact-checker/internal/replayengine/engine.go:605-755 | over every run an order's quantity is traded as taker, traded as maker, resting, cancelled or dropped, at most one of the last three non-zero |
| `Differential.DiffAggressor` | veltrix/artifact-checker/internal/replayengine/engine.go:459-542 | Unverified exactly when some maker is unknown; otherwise Correct exactly when makers, per-maker sums and price bands agree, however fills are split or ordered and maps walked; with known makers a verdict other than Incorrect puts every fill of a selected maker between its price and the order's end of the band |
| `Differential.TallyExpected` | veltrix/artifact-checker/internal/replayengine/engine.go:477-489 | the maker-keyed expectation holds per-maker sums and each maker's first trade |
| `Differential.TallyObserved` | veltrix/artifact-checker/internal/replayengine/engine.go:491-498 | per-maker sums and the total of the reported fills |
| `Differential.CheckPrices` | veltrix/artifact-checker/internal/replayengine/engine.go:524-555 | true exactly when no reported price lies below both or above both of the resting price of the maker it names and the order's own end of the band |
| `Differential.CheckShares` | veltrix/artifact-checker/internal/replayengine/engine.go:508-515 | true exactly when every expected maker was reported for its full share |
| `Differential.CheckMakers` | veltrix/artifact-checker/internal/replayengine/engine.go:516-522 | true exactly when no maker was reported that priority did not select |
| `Differential.OffSpanDiverges` | veltrix/artifact-checker/internal/replayengine/engine.go:524-555 | with all makers known, one fill of a selected maker priced below both or above both of the maker's price and the aggressor's end makes the order Incorrect |
| `Differential.PriceDecides` | veltrix/artifact-checker/internal/replayengine/engine.go:524-555 | and with makers and shares right it is Incorrect exactly when there is such a fill |
| `Differential.SharesGiveTotal` | veltrix/artifact-checker/internal/replayengine/engine.go:500-522 | agreeing makers and shares force agreeing totals, so the early total test rejects nothing the full comparison accepts |
| `ReplayEngine.Replay` | veltrix/artifact-checker/internal/replayengine/engine.go:248-443 | for every event list the imperative replay returns the verdict of the specification fold for a choice of books its cancels could have met, and the one verdict there is when no event splits the walks or every order id is accepted on one ticker only |
| `ReplayEngine.RunBooks` | veltrix/artifact-checker/internal/replayengine/engine.go:280-354 | the event loop over one mutable book per ticker computes the fold's tally |
| `ReplayEngine.CancelFirst` | veltrix/artifact-checker/internal/replayengine/engine.go:330-338 | walking the books in any order cancels the order in one book that has it, and in no other |
| `ReplayEngine.JudgeAll` | veltrix/artifact-checker/internal/replayengine/engine.go:375-401 | the comparison loop computes the running taint, mismatches and hard divergences in sequence order |
| `ReplayEngine.Conclude` | veltrix/artifact-checker/internal/replayengine/engine.go:356-443 | from the tally to the verdict: gaps, orphans, the comparison of every order, and the policy |
| `ReplayEngine.CountOrphans` | veltrix/artifact-checker/internal/replayengine/engine.go:365-373 | counts exactly the fills' aggressors without a recorded intent |
| `ReplayEngine.FinalizeEvents` | veltrix/artifact-checker/internal/replayengine/engine.go:188-220 | no end marker, no judgement; otherwise the replay's verdict, which under the same condition is a function of the events |
| `VerdictLaws.TaintIsSuspicion` | veltrix/artifact-checker/internal/replayengine/engine.go:375-401 | the running taint map marks an order exactly when an earlier loss or unknown maker on its ticker could explain a divergence |
| `ReplayChoices.ReplayIsIncorrectIff` | veltrix/artifact-checker/internal/replayengine/engine.go:375-408 | whichever book each cancel meets first, Incorrect exactly when some recorded order diverges with nothing on record to excuse it |
| `ReplayChoices.ReplayIsCorrectIff` | veltrix/artifact-checker/internal/replayengine/engine.go:356-443 | whichever book each cancel meets first, Correct exactly when every order agrees, no fill is orphaned, and there is nothing to judge or 20*(unknown+gap) < attempts |
| `ReplayLaws.GapCountsHoles` | veltrix/artifact-checker/internal/replayengine/engine.go:356-363 | the counter comparison equals the number of sequence numbers missing below the highest seen (pigeonhole) |
| `ReplayChoices.ReplayCountsHoles` | veltrix/artifact-checker/internal/replayengine/engine.go:356-363 | so whichever book each cancel meets first the gap of an event list is the number of holes in its sequence numbers |
| `ReplayChoices.TaintIsLoss` | veltrix/artifact-checker/internal/replayengine/engine.go:263-278 | a ticker is tainted before a point exactly when an unknown outcome on that ticker was recorded before it |
| `ReplayChoices.DedupFoldsPicks` | veltrix/artifact-checker/internal/replayengine/engine.go:280-290 | redeliveries leave the whole replay state unchanged and add no choice of books |
| `ReplayChoices.NothingToReplay` | veltrix/artifact-checker/internal/replayengine/engine.go:280-354 | a redelivery changes nothing whatever it says, nor does an unnumbered end marker, unknown action or fill without an aggressor |
| `ReplayChoices.PossibleVerdictsDependOnSet` | veltrix/artifact-checker/internal/replayengine/engine.go:188-338 | permuting and duplicating the events neither adds a possible verdict nor takes one away, order ids distinct or not |
| `MapWalks.ForcedIff` | veltrix/artifact-checker/internal/replayengine/engine.go:330-338 | the order in which the map of books is walked decides what an event does exactly when the event cancels an order that is live in two books |
| `MapWalks.OneStateIffNeverSplits` | veltrix/artifact-checker/internal/replayengine/engine.go:330-338 | all walks agree on the state after every prefix of a list exactly when none of its events does that |
| `MapWalks.OneVerdictWithoutSplits` | veltrix/artifact-checker/internal/replayengine/engine.go:188-338 | without such an event exactly one verdict is possible |
| `MapWalks.OneTickerNeverSplits` | veltrix/artifact-checker/internal/replayengine/engine.go:330-338 | there is none when every order id is accepted on one ticker only, however often |
| `MapWalks.TwoVerdicts` | veltrix/artifact-checker/internal/replayengine/engine.go:330-338 | an instance: five events, one order id accepted on two tickers, that may be judged Correct and may be judged Incorrect |
| `MapWalks.OneVerdictPossible` | veltrix/artifact-checker/internal/replayengine/engine.go:188-338 | with every order id on one ticker exactly one verdict is possible |
| `MapWalks.PicksDoNotMatter` | veltrix/artifact-checker/internal/replayengine/engine.go:330-338 | with every order id on one ticker the order in which the book map is walked changes nothing |
| `Writer.ThreadWorker.Start` | veltrix/bot-fleet/src/thread_worker.cpp:184-215 | the whole worker, stopped between attempts or in the middle of one: what was recorded is the stream of the run, with the cut attempt's number unused; what was delivered is part of it whatever uploads fail, and all of it if none does, the trades of the last batch behind the marker; and if every failed upload could reopen its stream, whatever was recorded since uploads last began to succeed is delivered |
| `Writer.ThreadWorker.CutOff` | veltrix/bot-fleet/src/thread_worker.cpp:320-325 | an attempt cut off by the stop leaves no record but takes a number |
| `Writer.ThreadWorker.Finish` | veltrix/bot-fleet/src/thread_worker.cpp:190-208 | the marker is recorded last and the last flush sends the waiting orders, the marker and the waiting trades in that order |
| `Writer.ThreadWorker.SendOne` | veltrix/bot-fleet/src/thread_worker.cpp:320-518 | every outcome path records one intent under the reserved number, whatever flushes happen meanwhile: Rejected exactly for an answer of status 400 to 499, Ok exactly for a parsed 200 with a non-zero id, Unknown otherwise; fills follow, one per reported trade, only behind an Ok |
| `Writer.OutcomeRecorded` | veltrix/bot-fleet/src/thread_worker.cpp:450-518 | the same of the recorded log, with the server id an Ok carries, the order or cancel it is about, and submission, timestamp and ticker of every record |
| `Writer.ThreadWorker.SendOrders` | veltrix/bot-fleet/src/thread_worker.cpp:271-519 | after a run exactly the run's log has been recorded, every record delivered, lost with a failed upload, or still in its vector |
| `Writer.ThreadWorker.FlushTick` | veltrix/bot-fleet/src/thread_worker.cpp:531-566 | a flush empties both vectors; with the stream open and something to send, a success delivers what they held and loses nothing, a failure loses it and leaves the stream open exactly if it could be reopened; otherwise it is lost and the stream stays as it was |
| `Writer.ThreadWorker.RecordEndOfRun` | veltrix/bot-fleet/src/thread_worker.cpp:190-197 | the marker takes the next number |
| `Writer.StreamNumbered` | veltrix/bot-fleet/src/thread_worker.cpp:320-354 | the stream's sequence numbers are exactly 1..N in order, the marker N |
| `Writer.StreamIsOwn` | veltrix/bot-fleet/src/thread_worker.cpp:340-354 | every record of a stream is stamped with its submission |
| `Writer.OneIntentPerAttempt` | veltrix/bot-fleet/src/thread_worker.cpp:327-354 | one intent per attempt, over all outcomes |
| `Writer.SplitAttempt` | veltrix/bot-fleet/src/thread_worker.cpp:450-510 | each attempt contributes its intent and its fills and nothing else |
| `StreamComplete.WriterDischargesGap` | veltrix/artifact-checker/internal/replayengine/engine.go:356-373 | on every uninterrupted run, received in any order and multiplicity, the checker's gap is 0 and its orphans are exactly the texts of cancels answered with trades that no accepted order has as its id |
| `StreamComplete.NoOrphanIff` | veltrix/artifact-checker/internal/replayengine/engine.go:365-373 | so there is no orphan exactly when there is no such cancel |
| `StreamComplete.CancelWithTradesIsOrphan` | veltrix/bot-fleet/src/thread_worker.cpp:471-508 | an instance: a lone cancel answered with a trade is an orphan |
| `StreamComplete.CutStreamIsWithheld` | veltrix/artifact-checker/internal/replayengine/engine.go:188-205 | cut behind a trading order's intent, an honest lossless stream would be convicted by the comparison alone; without the marker it is withheld |
| `DeliveryOrder.EndsRunIff` | veltrix/telemetry-ingester/internal/grpcserver/server.go:66-73 | the marker ends what is delivered exactly when the last batch has no trades and nothing carries a later timestamp |
| `DeliveryOrder.MissingFillIsUnverified` | veltrix/artifact-checker/internal/replayengine/engine.go:356-443 | an honest lossless run of which every request but not every fill has arrived is judged Unverified |
| `DeliveryOrder.TradesBehindMarker` | veltrix/telemetry-ingester/internal/grpcserver/server.go:66-73 | so a fully delivered honest run whose last batch has a trade of some quantity is Unverified if judged when the marker is read |
| `DeliveryOrder.CutRunIsNeverIncorrect` | veltrix/artifact-checker/internal/replayengine/engine.go:356-399 | a run stopped in the middle of an attempt is never judged Incorrect, whoever answered it and whatever arrives of it |
| `Contestant.WorldStaysOk` | veltrix/test/main.cpp:396-559 | over every run with fresh ids the contestant's books are sound, exactly indexed, and every order rests on its own ticker |
| `SoundnessTheorems.RunInLockstep` | veltrix/artifact-checker/internal/replayengine/engine.go:280-354 | after every honest run the checker's book of each ticker without a loss is the contestant's, and every recorded order agrees or stands behind a loss |
| `SoundnessTheorems.NoGapMeansWhole` | veltrix/artifact-checker/internal/replayengine/engine.go:356-363 | a received part of a stream that has the marker and no gap is the whole stream |
| `SoundnessTheorems.HonestIsNeverIncorrect` | veltrix/artifact-checker/internal/replayengine/engine.go:188-443 | any part of an honest stream, in any order and multiplicity, orders lost with unknown outcome applied or not, is never judged Incorrect |
| `SoundnessTheorems.CompleteHonestRunPasses` | veltrix/artifact-checker/internal/replayengine/engine.go:188-443 | a complete honest stream without unknowns, permuted and duplicated at will, is judged Correct |
| `SoundnessTheorems.DeliveryIsNeverIncorrect` | veltrix/bot-fleet/src/thread_worker.cpp:184-215 | what the worker delivers of an honest run is never judged Incorrect, whatever uploads fail |
| `LossyRuns.RunAttempts` | veltrix/artifact-checker/internal/replayengine/engine.go:256-278 | over every run, honest or not, the replay counts exactly the attempts |
| `LossyRuns.HonestIsCorrectIff` | veltrix/artifact-checker/internal/replayengine/engine.go:402-443 | the complete stream of an honest run is Correct exactly when fewer than one in twenty outcomes are unknown and every recorded order compares correct |
| `LossyRuns.ClearRunIsCorrectIff` | veltrix/artifact-checker/internal/replayengine/engine.go:402-443 | and when no order is accepted behind a loss on its ticker the first condition alone decides |
| `LossyRuns.LossIsForgiven` | veltrix/artifact-checker/internal/replayengine/engine.go:402-443 | an instance: twenty refused cancels and one order of unknown outcome are judged Correct |
| `SoundnessTheorems.FullDeliveryPasses` | veltrix/bot-fleet/src/thread_worker.cpp:184-215 | and if none fails and no outcome is unknown it is judged Correct |
| `SoundnessTheorems.OneVerdictOnPart` | veltrix/artifact-checker/internal/replayengine/engine.go:330-338 | on any part of a run with fresh ids the replay has one possible verdict |
| `Contestant.HonestAnswerExists` | veltrix/artifact-checker/internal/replayengine/engine.go:544-555 | every fresh order has an honest answer, so the honesty premise is never vacuous |
| `Contestant.WholeReportIsHonest` | veltrix/artifact-checker/internal/replayengine/engine.go:459-542 | reporting the true trades whole, at any prices inside the band, is honest |
| `HiddenCancel.HiddenCancelConvicts` | veltrix/artifact-checker/internal/replayengine/engine.go:263-278 | after any honest run one applied-but-unknown cancel on a clean ticker lets an honest accepted next order be judged Incorrect on the complete stream |
| `HiddenCancel.SafeIffNotHidden` | veltrix/artifact-checker/internal/replayengine/engine.go:263-278 | an honest run without hidden cancels, extended by one exchange, is safe from Incorrect under every further honest continuation without one exactly when that exchange is not a hidden cancel |
| `HiddenCancel.HiddenCancelHappens` | veltrix/bot-fleet/src/thread_worker.cpp:320-354 | an instance: a resting sell order, its cancel applied after a time-out, and a third honest order that convicts the run |
| `OrderlyRuns.RunTracks` | veltrix/artifact-checker/internal/replayengine/engine.go:280-354 | over every run with fresh ids and no unknown outcome, whatever is reported, the checker's books, ids, expectations and observations are those of the run |
| `OrderlyRuns.CompleteRunIsCorrectIff` | veltrix/artifact-checker/internal/replayengine/engine.go:356-443 | the complete stream is Correct exactly when every accepted order's reported makers are known and agree with the golden trades on the run's own book, and no cancel is answered with foreign trades |
| `OrderlyRuns.CompleteRunIsIncorrectIff` | veltrix/artifact-checker/internal/replayengine/engine.go:356-443 | it is Incorrect exactly when some accepted order disagrees with no unknown maker before it on its ticker, and no cancel is answered with foreign trades |
| `OrderlyRuns.EveryBugIsCaught` | veltrix/artifact-checker/internal/replayengine/engine.go:14-17 | with all makers known and no foreign trades, Incorrect exactly when some accepted order's report disagrees with the golden trades |
| `PriceSpans.DueAt` | veltrix/artifact-checker/internal/replayengine/engine.go:311-322 | an accepted order owes the golden trades on the book it met, however the run goes on |
| `PriceSpans.MakerTrade` | veltrix/artifact-checker/internal/replayengine/engine.go:628-690 | a maker's first trade names the price it rests at and the order's own end: its limit or, for a market order, the worst price resting against it |
| `PriceSpans.OffSpanConvicts` | veltrix/artifact-checker/internal/replayengine/engine.go:524-555 | on a complete run with known makers and no foreign trades, one fill reported for an accepted order beyond both the resting price of the order it names and the order's own end makes the stream Incorrect |
| `OrderlyRuns.FirstLieConvicts` | veltrix/artifact-checker/internal/replayengine/engine.go:14-17 | however long a contestant was honest and whatever was lost, its first disagreeing report on a ticker without losses, about makers of such tickers, is judged Incorrect |
| `PartialRuns.RunArrives` | veltrix/artifact-checker/internal/replayengine/engine.go:280-354 | replaying any part of a run files exactly the requests whose records arrived, on their own books, and witnesses exactly the fills that arrived |
| `PartialRuns.PartIsCorrectIff` | veltrix/artifact-checker/internal/replayengine/engine.go:356-443 | any part of a run's stream, whatever was reported, is Correct exactly when the marker is in, 20*(missing+unknown) is below the attempts on record, every received fill is of an order on record, and every order on record agrees with the golden trades on the book of the requests on record |
| `PartialRuns.PassMeansChecked` | veltrix/artifact-checker/internal/replayengine/engine.go:14-17 | so in a run that passes every order on record was checked and less than a twentieth as many attempts are unrecorded or unknown as are on record |
| `ReferenceEngine.Orderbook.constructor` | veltrix/test/main.cpp:475-479 | a fresh book is empty and well formed |
| `ReferenceEngine.Orderbook.AddOrder` | veltrix/test/main.cpp:494-553 | for every unsigned quantity, 0 included, book, trades and self-deadlock of every order type equal the insert-then-cross specification; unless it deadlocks the book stays sorted, uncrossed, exactly indexed and free of fill-and-kill orders |
| `ReferenceEngine.Orderbook.InsertAndMatch` | veltrix/test/main.cpp:520-552 | the order takes its place, the book is crossed, and a fill-and-kill remainder is noticed exactly when it leads its side |
| `ReferenceEngine.Orderbook.MatchOrders` | veltrix/test/main.cpp:396-472 | the nested loops trade best bid against best ask until they no longer cross and drop exactly the filled orders |
| `ReferenceEngine.Orderbook.CrossLevels` | veltrix/test/main.cpp:412-440 | the inner loop, progress included |
| `ReferenceEngine.Orderbook.CanMatch` | veltrix/test/main.cpp:378-394 | true exactly when the best opposing price is acceptable |
| `ReferenceEngine.Orderbook.CanFullyFill` | veltrix/test/main.cpp:340-376 | for every quantity, true exactly when some opposing order stands at an acceptable price and the acceptable depth covers the quantity |
| `ReferenceEngine.Orderbook.CancelOrder` | veltrix/test/main.cpp:273-308 | removes exactly the indexed order; an unknown id changes nothing |
| `ReferenceSpec.CrossIsSweep` | veltrix/test/main.cpp:396-450 | with the newcomer at the head of its side, crossing both sides is sweeping the opposing one |
| `ReferenceSpec.InsertThenCrossIsMatchThenRest` | veltrix/test/main.cpp:520-545 | insert-then-cross and match-then-rest leave the same book, index included, and make the same trades in the same order |
| `EnginesAgree.SampleAgreesExactly` | veltrix/test/main.cpp:494-553 | every order of every type makes the golden trades, in order; it ends in the golden book exactly when it is not a market order or crossing fill-and-kill order left with a remainder |
| `EnginesAgree.SampleKeepsMarketRemainder` | veltrix/test/main.cpp:501-549 | an instance: a market buy of 2 against one ask of 1 leaves a resting bid in the sample and none in the golden book |
| `EnginesAgree.RemainderTradesNext` | veltrix/test/main.cpp:501-549 | from there the next sell trades in the sample and not in the golden model |
| `EnginesAgree.SampleDeadlocksOnRemainder` | veltrix/test/main.cpp:452-469 | an instance: a crossing fill-and-kill order with a remainder never returns |
| `EnginesAgree.ZeroQuantityOrder` | veltrix/test/main.cpp:396-450 | a limit order for quantity 0 makes one trade of nothing if it crosses and rests otherwise, on any book, where the golden model does neither |
| `ReferenceEngine.CrossKeepsIndexed` | veltrix/test/main.cpp:417-432 | crossing leaves every order indexed exactly once at its side and price, whatever the quantities |
| `EnginesAgree.EnginesAgreeOverRuns` | veltrix/test/main.cpp:494-559 | over every run of such orders and cancels both engines hold the same book, and the next operation makes the same trades |
| `SampleServer.ReportedInBand` | veltrix/test/main.cpp:1527-1542 | the ask price the server reports always lies in the checker's price band |
| `SampleServer.AnswerIsMirror` | veltrix/test/main.cpp:1523-1543 | the answer's trade list is the whole list of golden trades under the server's ids |
| `SampleServer.SampleIsHonest` | veltrix/test/main.cpp:1458-1546 | throughout every run of conforming requests, orders that lock an engine up among them, the server's books on unlocked tickers and its ids match the contestant model, whatever the registry holds is an order of that model, every answer is honest and no lost cancel took effect |
| `ServerRegistry.RegistryStaysExact` | veltrix/test/main.cpp:1482-1498 | and the registry holds exactly the orders that rest on unlocked tickers, each under its own id |
| `ServerRegistry.CancelOfRestingIsServed` | veltrix/test/main.cpp:1457-1480 | so the cancel of an order resting on an unlocked ticker is answered 200; the order rests no more, every other one does, its id is forgotten, and the same cancel again is answered 404 |
| `ServerRegistry.CancelIsServedIff` | veltrix/test/main.cpp:1457-1480 | and no other cancel is answered 200 |
| `ServerRegistry.AnswerIsOwnTrades` | veltrix/test/main.cpp:1523-1546 | the answer to a served order lists the golden trades one by one under both parties' server ids, at the resting price for a buy and its own limit for a sell |
| `ServerRegistry.UnknownKindIsRefused` | veltrix/test/main.cpp:1500-1504 | an order of an unknown kind is answered 400 and changes no book, id or registry |
| `ServerRegistry.IdsCountOrders` | veltrix/test/main.cpp:1509-1517 | after any requests the next id is one more than the number of orders of known kinds among them, answered or not |
| `SampleServer.SampleServerNeverFails` | veltrix/test/main.cpp:1458-1546 | end to end: no part of the stream of such a run is ever judged Incorrect, fill-and-kill deadlocks and what waits behind them included |
| `SampleServer.SampleServerPasses` | veltrix/test/main.cpp:1458-1546 | and its complete stream is Correct exactly when fewer than one in twenty requests got no answer |
| `MarketRemainder.LastIsSafe` | veltrix/test/main.cpp:1458-1546 | nor if the last request is a market order with a remainder |
| `MarketRemainder.RemainderRests` | veltrix/test/main.cpp:501-549 | a market remainder rests like that of a limit order at the worst opposing price, at the head of its side |
| `MarketRemainder.MarketRemainderConvicts` | veltrix/test/main.cpp:501-549 | after any conforming run, a market order with a remainder is followed by some served next order whose complete stream is judged Incorrect |
| `MarketRemainder.NextIsSafeIffConforms` | veltrix/test/main.cpp:494-553 | after a conforming run and any one more request, every next request is safe from Incorrect exactly when that one was not a market order with a remainder |
| `EventHeaps.EventHeap.HeapPush` | veltrix/artifact-checker/internal/watermark/event_heap.go:52-59 | append and sift-up keep the heap and add exactly the new item |
| `EventHeaps.EventHeap.HeapPop` | veltrix/artifact-checker/internal/watermark/event_heap.go:61-77 | returns the root; swap, sift-down and cut keep the heap and remove exactly that item |
| `EventHeaps.EventHeap.SiftUp` | veltrix/artifact-checker/internal/watermark/event_heap.go:30-50 | from a heap with one item too small for its place to a heap of the same items |
| `EventHeaps.EventHeap.SiftDown` | veltrix/artifact-checker/internal/watermark/event_heap.go:30-50 | from a heap with one item too large for its place to a heap of the same items |
| `EventHeaps.RootIsLeast` | veltrix/artifact-checker/internal/watermark/event_heap.go:79-87 | no item comes before the root |
| `EventHeaps.RootIsHead` | veltrix/artifact-checker/internal/watermark/event_heap.go:79-87 | the root is the head of the sorted list the heap stands for |
| `EventHeaps.PushStands` | veltrix/artifact-checker/internal/watermark/event_heap.go:28-43 | pushing inserts behind all items with the same or an earlier timestamp |
| `Watermark.Processor.constructor` | veltrix/artifact-checker/internal/watermark/processor.go:50-66 | a negative lateness becomes two seconds; nothing is pending |
| `Watermark.Processor.Enqueue` | veltrix/artifact-checker/internal/watermark/processor.go:139-150 | the event joins the pending list at its stable place and the maximum advances |
| `Watermark.Processor.EmitReady` | veltrix/artifact-checker/internal/watermark/processor.go:158-175 | releases exactly the pending prefix at or behind the watermark, oldest first |
| `Watermark.Processor.Flush` | veltrix/artifact-checker/internal/watermark/processor.go:177-189 | releases everything pending, oldest first |
| `Watermark.Processor.Process` | veltrix/artifact-checker/internal/watermark/processor.go:124-137 | an end marker flushes, any other event releases what is ready |
| `Watermark.Processor.Run` | veltrix/artifact-checker/internal/watermark/processor.go:68-122 | over every mix of arrivals and idle timeouts until close, the output is the specified one and nothing stays behind |
| `Reordering.EachEventOnce` | veltrix/artifact-checker/internal/watermark/processor.go:68-122 | every run emits exactly the events that arrived, each as often as it arrived |
| `Reordering.FifoWithinTimestamp` | veltrix/artifact-checker/internal/watermark/event_heap.go:28-43 | on every run events with the same timestamp leave in arrival order |
| `ReorderTheorems.BufferIsHeld` | veltrix/artifact-checker/internal/watermark/processor.go:68-189 | after any input the buffer holds timestamps exactly for the arrivals newer than the watermark with no flush since, and exactly the others were released |
| `ReorderTheorems.ReorderIsStableSort` | veltrix/artifact-checker/internal/watermark/processor.go:68-189 | the output is the stable sort of the input by timestamp exactly when, read off the inputs alone, each event overtaken by an older arrival is still held back when that arrives |
| `ReorderTheorems.LatenessWindowSorts` | veltrix/artifact-checker/internal/watermark/processor.go:68-85 | bounded lateness without an early flush is enough for that |
| `Reordering.EndDelivers` | veltrix/artifact-checker/internal/watermark/processor.go:124-137 | a run ending in a marker has delivered everything without waiting for the close |
| `StableSort.StableSortIsUnique` | veltrix/artifact-checker/internal/replayengine/engine.go:249-253 | a sorted sequence with the same elements in the same order under each key is the stable sort |
| `RouterLoop.Router.Run` | veltrix/artifact-checker/internal/watermark/router.go:58-88 | each named submission's channel gets exactly its own events in order; unnamed events are dropped |
| `EngineRun.Engine.Receive` | veltrix/artifact-checker/internal/replayengine/engine.go:105-124 | buffers, finalized set and started worker after one event |
| `EngineRun.Engine.TakeEvents` | veltrix/artifact-checker/internal/replayengine/engine.go:173-182 | lifts the buffer off and marks the submission final |
| `EngineRun.Engine.Drain` | veltrix/artifact-checker/internal/replayengine/engine.go:101-124 | the main loop over a whole input |
| `EngineTheorems.EveryInterleavingIsOk` | veltrix/artifact-checker/internal/replayengine/engine.go:57-182 | in every interleaving: buffers hold whole unended submissions, each job is its submission up to the end marker, names are never duplicated, at most cap replays run |
| `EngineTheorems.VerdictsAreOwn` | veltrix/artifact-checker/internal/replayengine/engine.go:134-153 | at any moment no submission has two verdicts and each verdict is one its own events allow |
| `EngineTheorems.OneVerdictEach` | veltrix/artifact-checker/internal/replayengine/engine.go:90-171 | when the updates channel is closed exactly the submissions heard of have a verdict, one each |
| `EngineTheorems.ClosedIsFinal` | veltrix/artifact-checker/internal/replayengine/engine.go:95-99 | after the channel is closed no step changes anything, so nothing is sent on it |
| `EngineTheorems.NeverStuck` | veltrix/artifact-checker/internal/replayengine/engine.go:134-171 | while the channel is open after the input closed, some enabled step brings the end nearer |
| `EngineTheorems.NeverAway` | veltrix/artifact-checker/internal/replayengine/engine.go:134-171 | and no step leads away from it |
| `Pipeline.EveryPipeIsOk` | veltrix/artifact-checker/internal/watermark/router.go:31-103 | in every interleaving of router, processors, idle flushes and engine, each processor has taken exactly its own events and what left it is what its run emits |
| `Pipeline.IdleFlushes` | veltrix/artifact-checker/internal/watermark/processor.go:112-118 | an idle processor sends on exactly what it held back; with what it sent before that is everything that ever arrived there, and nothing is held back any more |
| `PipelineProgress.AlwaysNearer` | veltrix/artifact-checker/internal/watermark/router.go:31-103 | once the input is closed some move lowers what is left to do until the updates channel is closed, and it needs room for one event in the shared channel at most |
| `PipelineProgress.NeverFurther` | veltrix/artifact-checker/internal/watermark/router.go:31-103 | and no move raises it |
| `PipelineProgress.EveryPipeCanClose` | veltrix/artifact-checker/internal/watermark/router.go:31-103 | so from whatever any interleaving has reached the pipeline can still close its updates channel |
| `PipelineTheorems.EndReleasesAll` | veltrix/artifact-checker/internal/watermark/processor.go:124-137 | a last end marker with the largest timestamp leaves the processor last, behind everything else |
| `PipelineTheorems.OneVerdictPerRouted` | veltrix/artifact-checker/internal/watermark/router.go:33-103 | once the updates channel is closed every submission the router was given has exactly one verdict and no other has any |
| `PipelineTheorems.EveryInputIsJudged` | veltrix/artifact-checker/internal/watermark/router.go:33-103 | every input can be brought through the pipeline: taken by the router as it is, with one verdict for each submission in it |
| `PipelineTheorems.VerdictIsOwnReplay` | veltrix/artifact-checker/internal/watermark/router.go:33-103 | composition: a submission whose end marker is routed last with the largest timestamp gets the verdict of its own events, whatever the interleaving and the other submissions |
| `PipelineTheorems.NoInterleavingFailsHonest` | veltrix/artifact-checker/internal/watermark/router.go:33-103 | end to end, with no assumption on order, timestamps or timeouts: no interleaving judges an honest submission Incorrect |
| `PipelineTheorems.CompleteRunPassesPipeline` | veltrix/artifact-checker/internal/watermark/router.go:33-103 | a complete honest stream whose marker is routed last ends in exactly one verdict, Correct |
| `PipelineTheorems.CompleteRunGetsThrough` | veltrix/artifact-checker/internal/watermark/router.go:33-103 | and it gets there: a complete honest stream with no fill later than its marker can be brought to its one Correct |
| `Histogram.HdrLatencyHistogram.Record` | veltrix/bot-fleet/include/telemetry.hpp:52-71 | a sample of v milliseconds raises the one bucket with every earlier bound below v and v not above its own, the last one if v is beyond the table; a negative one, NaN and minus infinity raise the first, plus infinity the last; the total goes up by one |
| `Histogram.BucketsAreIntervals` | veltrix/bot-fleet/include/telemetry.hpp:42-48 | the eighteen buckets are the eighteen intervals of the table, in milliseconds |
| `Histogram.HdrLatencyHistogram.Reset` | veltrix/bot-fleet/include/telemetry.hpp:73-77 | all buckets and the total become zero |
| `Histogram.MergeHistogram` | veltrix/artifact-checker/internal/aggregator/aggregator.go:262-276 | bucket-wise sum over histograms of any lengths |
| `Histogram.HistogramTotal` | veltrix/artifact-checker/internal/aggregator/aggregator.go:278-284 | the sum of all buckets |
| `Histogram.PercentileBucketIndex` | veltrix/artifact-checker/internal/aggregator/aggregator.go:223-245 | -1 when empty; otherwise, for a percentage p above 0 and up to 100, the index with 100 times the count before it below p times the total, and 100 times the count through it not below |
| `Histogram.IndexOutside` | veltrix/artifact-checker/internal/aggregator/aggregator.go:223-245 | a percentage of 0 or less finds the first sample's bucket, one above 100 ends in the last bucket |
| `Histogram.PercentileMs` | veltrix/artifact-checker/internal/aggregator/aggregator.go:247-260 | that bucket's bound, clamped to the table; 0 when empty |
| `HistogramLaws.MergeIsConcat` | veltrix/artifact-checker/internal/aggregator/aggregator.go:262-276 | merging two histograms is recording all their samples in one |
| `HistogramLaws.AggregateCountsAll` | veltrix/artifact-checker/internal/aggregator/aggregator.go:112-121 | however samples are spread over threads and batches the aggregate counts all of them |
| `HistogramLaws.PercentileIsNearestRank` | veltrix/artifact-checker/internal/aggregator/aggregator.go:223-245 | where 100*(k-1) < p*n <= 100*k, the reported bucket is the bucket of the k-th smallest of all n recorded samples |
| `HistogramLaws.NearestRankExists` | veltrix/artifact-checker/internal/aggregator/aggregator.go:231-234 | every percentage in (0, 100] of some samples asks for such a k, and there is a k-th smallest sample |
| `HistogramLaws.ReportedValue` | veltrix/artifact-checker/internal/aggregator/aggregator.go:247-260 | for plain times: if v is the k-th smallest and k the rank asked for, the reported value is the least bound not below v when v is at most 1000 ms, and 1000 above |
| `HistogramLaws.MergeIsBetween` | veltrix/artifact-checker/internal/aggregator/aggregator.go:223-276 | the percentile index of a merge lies between those of its parts |
| `HistogramLaws.PercentileGrows` | veltrix/artifact-checker/internal/aggregator/aggregator.go:223-245 | the index is monotone in the percentage |
| `HistogramLaws.PaddingChangesNothing` | veltrix/artifact-checker/internal/aggregator/aggregator.go:262-276 | trailing empty buckets change no percentile |
| `HistogramLaws.MergeCommutes` | veltrix/artifact-checker/internal/aggregator/aggregator.go:262-276 | batches may arrive in any order |
| `HistogramLaws.MergeAssociates` | veltrix/artifact-checker/internal/aggregator/aggregator.go:262-276 | batches may be grouped in any way |

## Left out

* Wire formats: JSON, protobuf, HTTP and WebSocket framing, header parsing. Events, requests and answers are datatypes, with `action`, `order_type` and `outcome` already trimmed and upper-cased; reason texts and log lines are dropped.
* Kafka, Redis, Postgres, MinIO, gRPC and Docker clients, HTTP handlers, archive handling, core and fleet selection, the submission lifecycle and the leaderboard: plumbing, or lemmas too short to be worth stating.
* Clocks: an idle timeout is a step that may happen at any moment; time-outs and tickers have no durations. Context cancellation is not modelled, since progress is claimed for runs that are not cancelled.
* Number widths: prices, quantities, sequence numbers and counters are unbounded, prices are integer ticks (`toTick` and its rounding are outside), and no 32- or 64-bit wrap-around is modelled.
* Floating point: the 5% and 50% thresholds are the integer comparisons `20 * u >= n` and `2 * u > n`; latencies are exact reals, and percentile targets are exact ceilings.
* Channels are unbounded. Bounded capacities only remove interleavings, so every statement about all interleavings covers them; the moves `AlwaysNearer` gives need no more room than one event.
* `Engine.flushAll` sorts the remaining ids; the model allows any order.
* Memory sharing between goroutines: router, processors, engine and workers are one state machine over values, which leaves out data races.
* ReferenceEngine.Orderbook.CancelOrder: the stored list iterator is modelled by a search for the order's id at its price.
* ReferenceEngine.Orderbook.MatchOrders: order ids are opaque strings rather than integers, and an order's constant part is looked up by id where the original follows a reference.
* The sample server's per-price `data_` aggregate (never read), its mutex other than the self-deadlock and what waits for it, the good-for-day pruning thread and `ModifyOrder`.
* SampleServer.SampleServerPasses: requests are handled one after the other, order quantities are positive as the load generator sends them, and no market order leaves a remainder; `NextIsSafeIffConforms` says what happens otherwise.
* Writer.ThreadWorker.Start: the connection, send errors while connecting, latency samples beyond their presence, and the performance mode without records; trade timestamps are taken from the answer, and a flush falls between the records of two attempts.
* SoundnessTheorems.HonestIsNeverIncorrect: excludes cancels that took effect with an unknown outcome on an otherwise clean ticker, because the statement is false with them; `SafeIffNotHidden` says when exactly.
* PipelineTheorems.VerdictIsOwnReplay: that the end marker is routed last is an assumption. The ingester publishes a batch's orders before its trades (`veltrix/telemetry-ingester/internal/grpcserver/server.go:66-73`), so it does not follow from the writer. Without it the verdict is still never a false `incorrect`.
* The aggregator's flush windows, transactions per second and score emission; only the histogram arithmetic is modelled.
* Orders with a non-positive quantity in `FillOrKillIsAllOrNothing` and `QuantityIsConserved`; every other statement about the golden book covers them.
