# A verified model of the matching engine

The project models the matching engine of an exchange: a price-time-priority order book for one
instrument, the engine that holds one book per instrument, and the sharded, threaded system that
serves many clients and publishes every event on a bus.

## How it is built

* `Types`, `Queues`, `Matching`, `BookSpec`: the reference. One side of a book is a flat queue, best
  price first and first come first served within a price; matching is a greedy fill of the opposing
  queue from its front; a command maps a book to the next book and an output. The reference book keeps
  the log of all facts it ever reported.
* `Levels`, `Stamping`, `Taking`, `Orderbook`: the order book as the program has it, a class with a map
  of live orders, two maps from price to a queue of ids, two counters and an event buffer. A ghost field
  holds the reference book it represents, and every command is proved to do exactly what the reference
  does: same queues, same facts, same sequence numbers, same output. That the class verifies at all means
  that no lookup fails, no order is over-filled, and the nested matching loops end, for all quantities
  including zero.
* `BookInvariant`, `EventSourcing`, `Conservation`, `OrderTypes`, `Laws`, `Splitting`, `Positivity`,
  `Mirror`, `Grammar`: what holds for every command and every run of the reference, and so of the class.
  `Answers`: what each command answers, said of the book before it and of its events. `Witnesses`: short
  runs on which two of these laws meet their exceptions.
* `EngineSpec`, `Engine`, `Shards`, `Router`, `ThreadLoops`: the engine, the handle that guards it with a
  lock, the routing table, one shard, the router over many shards, and the loops of the two kinds of
  threads. `Projection`: what the engine makes of any sequence of requests, one instrument at a time.
* `Concurrent`, `Linearizability`, `Histories`, `BusProtocol`, `Liveness`, `EndToEnd`: the running system
  as a step machine in which clients, shard threads, the bus and shutdown interleave in any way.

Main results: the book class refines price-time priority (`Orderbooks.Orderbook.MatchOrders`,
`Matching.PriceTimePriority`); the log is legal entry by entry and replaying it rebuilds the book
(`EventSourcing.LogIsTheTruth`); every run of the sharded system is linearizable to one engine
(`Linearizability.RunsAreLinearizable`); calls come back and shutdown is always within reach
(`Liveness.CallsApproachTheirReturn`, `Liveness.ShutdownIsReachable`); and after shutdown what the consumer saw rebuilds every book
(`EndToEnd.ConsumerRebuildsEveryBook`).

## Modelling decisions

* `Order` is a value: the program copies it and the order map owns it, so filling an order is an update
  of the map.
* Prices and ids are only stored and compared, so they are unbounded here. Quantities are `u32`. A sum
  of a level wraps at 2^32, as release builds do. The `u64` counters saturate, and so do the numbers of
  the reference; numbers are distinct as long as fewer than 2^64 were used.
* The engine does not ask for positive quantities; only the gateway refuses zero. Zero-quantity orders
  behave as in the engine: a crossing taker trades once before it is looked at again, and a zero order
  that does not cross rests. What positive quantities keep is `Positivity.RunsStayPositive`.
* Claims about replay and about order types ask that a placed order has nothing filled yet
  (`Submittable`), which the two constructors of orders guarantee.
* The acceptance event is logged before matching and with the full quantity, as the code does
  (engine/src/orderbook/orderbook.rs:370-383); the comment at engine/src/events.rs:58-59 says otherwise.
* Two laws fail on some inputs; each has a run on which it fails and the exact condition. Splitting a
  fill-and-kill order in two is not neutral when the second part is empty and an empty maker within the
  limit has just the first part ahead of it (`Witnesses.SplitCanDiffer`, `Splitting.SplitFillAndKill`);
  that cannot happen when all quantities are positive (`Positivity.SplitAfterPositiveRun`). The dry run of
  fill-or-kill refuses wrongly when a level overflows and hides the quantity
  (`Witnesses.FillOrKillCanRefuseWrongly`, `Matching.FullFillIsExact`).
* A `ThreadLoops.Channel` also knows what the other threads will still send before the last sender goes;
  any part of it may arrive at any time, and the loops are proved for all of it.
* In `Concurrent`, `order` lists the processed calls; it is history, as are the times of a call, and no step
  depends on them except through the ticket numbers. That they are the true times is
  `Histories.TimesAreTrue`.

## Model

| member | source | states |
|---|---|---|
| `Queues.AtPriceInsert` | engine/src/orderbook/orderbook.rs:373-380 | joining the flat queue puts an order last in its own level and changes no other level |
| `Queues.AtPriceRemove` | engine/src/orderbook/orderbook.rs:431-436 | removing an order from the flat queue is retaining the other ids at each level, in their order |
| `Matching.PriceTimePriority` | engine/src/orderbook/orderbook.rs:221-307 | the makers hit are a prefix of the queue, in order, at their own prices and within the limit; all but the last give all they have; the rest of the queue is untouched; matching ends with the taker filled or nothing left to cross |
| `Matching.MatchConserves` | engine/src/orderbook/orderbook.rs:245-272 | what is traded comes off the taker and off the makers, and nothing else changes in total |
| `Matching.ExecutedQuantity` | engine/src/orderbook/orderbook.rs:221-307 | the executed quantity is the minimum of the quantity and the liquidity within the limit; the taker is filled exactly when it crosses and the liquidity covers it |
| `Matching.ShownIsSound` | engine/src/orderbook/orderbook.rs:172-175 | with sums that wrap, the depth within a limit is never over-stated |
| `Matching.ShownIsExact` | engine/src/orderbook/orderbook.rs:172-175 | it is exact if and only if no level within the limit holds 2^32 or more |
| `Matching.FullFillIsSound` | engine/src/orderbook/orderbook.rs:157-200 | a yes of the fill-or-kill dry run is kept by matching, wrap-around or not |
| `Matching.FullFillIsExact` | engine/src/orderbook/orderbook.rs:157-200 | the dry run agrees with matching for a quantity exactly unless the quantity lies above the shown and within the real depth; it agrees for all quantities exactly when no level overflows or the shown depth is already the largest quantity |
| `Matching.FullFillCanRefuseWrongly` | engine/src/orderbook/orderbook.rs:172-181 | an input on which a wrapped sum refuses an order that would be filled |
| `Matching.DepthRow` | engine/src/orderbook/orderbook.rs:515-538 | each row of the snapshot is a price at which orders rest, with their total modulo 2^32 |
| `Matching.DepthOrder` | engine/src/orderbook/orderbook.rs:519-535 | the rows stand best price first, one for each price |
| `Matching.DepthCovers` | engine/src/orderbook/orderbook.rs:515-538 | every resting order's price has a row |
| `BookInvariant.ExecuteKeeps` | engine/src/orderbook/orderbook.rs:309-469 | every command keeps both queues sorted, one entry for each live id, each order on its own side, and the book uncrossed; fresh orders keep only resting types resting |
| `BookInvariant.ReachableBooks` | engine/src/orderbook/orderbook.rs:309-469 | the same for every run from an empty book |
| `Levels.BestKeyIsHead` | engine/src/orderbook/orderbook.rs:142-148 | the first key of a price map is the price at the head of the queue, and the map is empty exactly when the queue is |
| `Levels.WorstKeyIsLast` | engine/src/orderbook/orderbook.rs:150-155 | the last key of a price map is the price of the queue's last order |
| `Levels.LeaveLevel` | engine/src/orderbook/orderbook.rs:431-436 | retaining the other ids and dropping an emptied level represents the queue without the order |
| `Levels.FrontFilled` | engine/src/orderbook/orderbook.rs:245-272 | after two fronts filled each other the maps represent the two queues with their heads reduced |
| `Taking.TakerLeads` | engine/src/orderbook/orderbook.rs:226-244 | in a book that was uncrossed, the order at the front of the taker's side is the taker whenever the two heads cross |
| `Taking.StepSides` | engine/src/orderbook/orderbook.rs:237-294 | a trade between the two fronts is one step of the greedy fill |
| `Stamping.SequenceNumbers` | engine/src/orderbook/orderbook.rs:66-74 | event number k carries k and trade number n carries n, until they reach the largest u64 and stay there |
| `Stamping.ReturnedTradesAreEvents` | engine/src/orderbook/orderbook.rs:278-291 | the trades of any stretch of the log are those inside its trade events, in order |
| `Stamping.EventsCarryTheLog` | engine/src/events.rs:56-96 | stripping the events of their numbers gives back the log |
| `Orderbooks.Orderbook.constructor` | engine/src/orderbook/orderbook.rs:41-52 | a new book represents the empty reference book with an empty log |
| `Orderbooks.Orderbook.MapsAgree` | engine/src/orderbook/orderbook.rs:29-38 | between commands every queued id is live, on its own side at its own price, and queued once; every live order is queued; no level is empty; every bid price is below every ask price |
| `Orderbooks.Orderbook.DrainEvents` | engine/src/orderbook/orderbook.rs:62-64 | hands over exactly the events logged since the last call, and leaves none |
| `Orderbooks.Orderbook.EmitOrderAccepted` | engine/src/orderbook/orderbook.rs:95-111 | the log grows by this acceptance with the next number, and nothing else changes |
| `Orderbooks.Orderbook.EmitOrderRejected` | engine/src/orderbook/orderbook.rs:113-121 | the log grows by this rejection with the next number, and nothing else changes |
| `Orderbooks.Orderbook.EmitOrderCanceled` | engine/src/orderbook/orderbook.rs:123-131 | the log grows by this cancellation with the next number, and nothing else changes |
| `Orderbooks.Orderbook.EmitTradeExecuted` | engine/src/orderbook/orderbook.rs:133-140 | the log grows by this trade with the next number, and nothing else changes |
| `Orderbooks.Orderbook.EmitTopOfBookIfChanged` | engine/src/orderbook/orderbook.rs:82-93 | the log grows by the current best prices if they differ from those before, and not otherwise |
| `Orderbooks.Orderbook.BestBid` | engine/src/orderbook/orderbook.rs:142-144 | the price at the head of the bids, if any |
| `Orderbooks.Orderbook.BestAsk` | engine/src/orderbook/orderbook.rs:146-148 | the price at the head of the asks, if any |
| `Orderbooks.Orderbook.WorstBid` | engine/src/orderbook/orderbook.rs:150-152 | the price of the last bid, if any |
| `Orderbooks.Orderbook.WorstAsk` | engine/src/orderbook/orderbook.rs:153-155 | the price of the last ask, if any |
| `Orderbooks.Orderbook.CanTrade` | engine/src/orderbook/orderbook.rs:202-219 | the price crosses the head of the opposing queue |
| `Orderbooks.Orderbook.CanFill` | engine/src/orderbook/orderbook.rs:157-200 | answers as the reference dry run on the shown depth |
| `Orderbooks.Orderbook.AsksCover` | engine/src/orderbook/orderbook.rs:168-183 | the walk over the asks says yes exactly when the shown depth within the limit covers the quantity |
| `Orderbooks.Orderbook.BidsCover` | engine/src/orderbook/orderbook.rs:184-197 | the same for the walk over the bids |
| `Orderbooks.Orderbook.LevelQuantity` | engine/src/orderbook/orderbook.rs:172-175 | the total of a level modulo 2^32 |
| `Orderbooks.Orderbook.OrderInfos` | engine/src/orderbook/orderbook.rs:515-538 | the snapshot of both sides as the reference gives it |
| `Orderbooks.Orderbook.FillFront` | engine/src/orderbook/orderbook.rs:245-272 | the two fronts fill each other for the smaller remainder, filled ones leave all maps |
| `Orderbooks.Orderbook.TradeFront` | engine/src/orderbook/orderbook.rs:245-291 | besides, one trade is logged and returned at the maker's price with the next trade number |
| `Orderbooks.Orderbook.MatchLevels` | engine/src/orderbook/orderbook.rs:237-294 | the inner loop takes the taker some steps of the greedy fill further, ends, and stops once one of the two levels is used up |
| `Orderbooks.Orderbook.MatchOrders` | engine/src/orderbook/orderbook.rs:221-307 | matching ends where the greedy fill ends: same trades in the same order, same makers left, own side otherwise untouched, no empty level left |
| `Orderbooks.Orderbook.CancelOrderInternal` | engine/src/orderbook/orderbook.rs:419-439 | the order leaves all maps, an emptied level goes too, and its remaining quantity is logged |
| `Orderbooks.Orderbook.AddOrderImpl` | engine/src/orderbook/orderbook.rs:316-390 | queues, facts and result are those of the reference placement, for every order type and every rejection |
| `Orderbooks.Orderbook.AddOrder` | engine/src/orderbook/orderbook.rs:309-314 | the whole command, with the report of the top of the book, is the reference command, whose answers are those of `Answers.PlaceAnswer` and `Answers.ReturnedTradesAreReported` |
| `Orderbooks.Orderbook.CancelOrder` | engine/src/orderbook/orderbook.rs:392-402 | the whole command is the reference command, whose answer is that of `Answers.CancelAnswer` |
| `Orderbooks.Orderbook.CancelOrders` | engine/src/orderbook/orderbook.rs:404-417 | the whole command is the reference command, whose two counts are those of `Answers.CancelsAnswer` |
| `Orderbooks.Orderbook.ModifyOrderImpl` | engine/src/orderbook/orderbook.rs:448-469 | queues, facts and result are those of the reference modification |
| `Orderbooks.Orderbook.ModifyOrder` | engine/src/orderbook/orderbook.rs:441-446 | the whole command is the reference command, whose answers are those of `Answers.ModifyUnknown` and `Answers.ModifyAnswer` |
| `EventSourcing.TradesReplay` | engine/src/orderbook/orderbook.rs:221-307 | from any point of matching on, the remaining trades are legal one after the other and replaying them gives the book at the end of matching |
| `EventSourcing.ExecuteStaysFaithful` | engine/src/orderbook/orderbook.rs:309-469 | every command keeps the log legal, its replay equal to the live orders, and its last top-of-book report right |
| `EventSourcing.LogIsTheTruth` | engine/src/events.rs:3-7 | the same for every run: replaying the log rebuilds live orders, remaining quantities and queue order; each acceptance is of a new id, each trade is between the two heads at the maker's price for the smaller remainder, each cancellation names what was left |
| `Conservation.LegalLogsConserve` | engine/src/orderbook/orderbook.rs:245-291 | in any legal log the accepted quantity is twice the traded plus the canceled plus the resting quantity |
| `Conservation.RunsConserve` | engine/src/orderbook/orderbook.rs:309-439 | the same for every run of the book |
| `OrderTypes.AcceptedExecutes` | engine/src/orderbook/orderbook.rs:316-390 | an accepted order executes exactly the minimum of its quantity and the liquidity it can reach, everything for a market order; the rest rests if the type lets it and is gone otherwise |
| `OrderTypes.TypePromises` | engine/src/orderbook/orderbook.rs:329-387 | good-till-cancel is refused only as a duplicate; post-only never trades; the immediate types trade at least once; market is filled or empties the other side |
| `OrderTypes.FillOrKillDecision` | engine/src/orderbook/orderbook.rs:365-390 | an accepted fill-or-kill order is filled completely and never rests; without overflow it is accepted exactly when the liquidity within the limit covers it |
| `Laws.CancelUndoesPlace` | engine/src/orderbook/orderbook.rs:370-439 | adding a good-till-cancel or post-only order that does not cross and canceling it restores both queues |
| `Laws.SameQueuesSameMaps` | engine/src/orderbook/orderbook.rs:29-38 | between commands equal queues mean equal maps, down to which levels exist |
| `Laws.BatchCancel` | engine/src/orderbook/orderbook.rs:404-417 | the survivors are the unlisted orders in their order; the first count is the number of distinct listed live ids; the counts add up to the length of the list |
| `Laws.BatchOrderIrrelevant` | engine/src/orderbook/orderbook.rs:404-417 | any permutation of the list gives the same book and counts |
| `Laws.RestsLast` | engine/src/orderbook/orderbook.rs:373-380 | an order that rests after it was placed is last in its level, behind those that were there |
| `Laws.ModifyLive` | engine/src/orderbook/orderbook.rs:448-469 | a modify of a live order on its side fails exactly when a post-only order would now take liquidity, and then the order is gone; what rests of it is last in its level |
| `Laws.ModifyIsCancelThenPlace` | engine/src/orderbook/orderbook.rs:448-469 | a modify leaves the book and, but for top-of-book reports, the log of a cancel followed by a placement of the same type |
| `Splitting.MatchInTwo` | engine/src/orderbook/orderbook.rs:221-307 | two takers in a row leave the makers, and take from each of them, as one taker of both quantities |
| `Splitting.LeavesEmptyFront` | engine/src/orderbook/orderbook.rs:221-307 | a taker leaves an empty maker in front exactly if an empty maker within the limit, not the first, had just its quantity ahead |
| `Splitting.SplitFillAndKill` | engine/src/orderbook/orderbook.rs:360-387 | the same for whole orders, accepted or not, exactly unless the second is empty and some empty maker within the limit, not the first, has just the first quantity ahead of it |
| `Splitting.SplitAmongPositive` | engine/src/orderbook/orderbook.rs:360-387 | no exception when every maker within the limit has quantity left |
| `Positivity.MatchStaysPositive` | engine/src/orderbook/orderbook.rs:221-307 | a positive taker among positive makers makes only positive trades, leaves no empty maker and, if it stays, has something left |
| `Positivity.RunsStayPositive` | gateway/src/handlers.rs:61-63 | if every placed and every modified quantity is positive, no order ever rests empty, and every acceptance, trade and cancellation in the log has a positive quantity |
| `Positivity.SplitAfterPositiveRun` | gateway/src/handlers.rs:128-130 | after such a run splitting a fill-and-kill order is neutral, even with an empty part |
| `Witnesses.SplitCanDiffer` | engine/src/orderbook/orderbook.rs:237-303 | after two placements of empty asks, two empty fill-and-kill buys leave another book than one |
| `Witnesses.FillOrKillCanRefuseWrongly` | engine/src/orderbook/orderbook.rs:172-181 | after two placements of 2^32 in all at one price, a fill-or-kill buy of 5 is rejected for insufficient liquidity, though matching would fill it |
| `Answers.PlaceAnswer` | engine/src/orderbook/orderbook.rs:316-390 | a placement is refused exactly for the reason of its type: a live id, an empty other side for a market order, some opposing order within the limit for post-only and none for the immediate types, too little shown depth for fill-or-kill; then that rejection is all that is logged; otherwise the acceptance is logged first, for a market order at the worst opposing price |
| `Answers.CancelAnswer` | engine/src/orderbook/orderbook.rs:392-402 | a cancel answers whether the order was live; it is gone and every other order stays where it was |
| `Answers.CancelsAnswer` | engine/src/orderbook/orderbook.rs:404-417 | a batch cancel answers the number of distinct listed live ids and the rest of the length of the list; those orders are gone, the others stay where they were, and the cancellations are logged in the order of the list |
| `Answers.ReturnedTradesAreReported` | engine/src/orderbook/orderbook.rs:278-291 | the trades in the answer of any command are exactly those in the trade events of that command, in order, and name the instrument; an answer without trades means that none was reported |
| `Answers.ModifyUnknown` | engine/src/orderbook/orderbook.rs:448-456 | without a live order of that id the answer and the one fact logged are not-found |
| `Answers.ModifyAnswer` | engine/src/orderbook/orderbook.rs:448-469 | an order of the other side answers side-change and nothing changes; otherwise the answer, its trades included, and the queues are those of canceling and then placing the changed order with its type kept |
| `Answers.TopIsBest` | engine/src/orderbook/orderbook.rs:76-93 | the reported top is the highest bid and the lowest ask, none exactly for an empty side, and the bid lies below the ask |
| `Answers.DepthIsRows` | engine/src/orderbook/orderbook.rs:515-538 | the rows of a side are the prices of its own orders with their totals modulo 2^32, best first, none left out |
| `Mirror.FlipMatch` | engine/src/orderbook/orderbook.rs:221-307 | matching commutes with swapping the sides and negating the prices |
| `Mirror.FlipExecute` | engine/src/orderbook/orderbook.rs:142-219 | so does every command, with its facts and output |
| `Mirror.FlipRun` | engine/src/orderbook/orderbook.rs:309-469 | and every run |
| `Grammar.CommandGrammar` | engine/src/orderbook/orderbook.rs:309-469 | a rejected placement logs a rejection, an accepted one an acceptance, trades of that taker and at most one cancellation; cancels log as many cancellations as they answer; a modify answered with not-found or side-change logs one rejection and changes nothing, any other cancels the order and then logs as a placement that fails exactly if the modify does; a top-of-book report follows exactly when the top changed |
| `EngineSpec.ProcessIsLocal` | engine/src/engine.rs:39-60 | a request reads and writes the book of its own instrument only |
| `Projection.ServedBooks` | engine/src/engine.rs:21-60 | after any requests an instrument has a book exactly if it was registered, and it is that of a run of the commands for the instrument since its first registration, in order |
| `Projection.ServedReplies` | engine/src/engine.rs:39-72 | the reply to each request, from the requests before it: a command gets the output, the events and the best prices after it on the run of its own instrument, or unknown-instrument; a registration whether it was the first; a snapshot the rows of bids and of asks; a top query the best bid and ask, the bid below the ask |
| `Engines.Engine.RegisterInstrument` | engine/src/engine.rs:23-29 | creates an empty book once, and says whether it did |
| `Engines.Engine.RunOn` | engine/src/engine.rs:46-58 | one action on a book gives the reference's output and exactly the events it added |
| `Engines.Engine.Run` | engine/src/engine.rs:39-60 | the reference answer and state, or the unknown-instrument error with nothing changed; over any sequence of requests these are what `Projection.ServedBooks` and `Projection.ServedReplies` say |
| `Engines.Engine.OrderbookState` | engine/src/engine.rs:62-64 | the snapshot, or none for an unknown instrument |
| `Engines.Engine.BestBid` | engine/src/engine.rs:66-68 | the best bid of a registered instrument, and none for an unknown one |
| `Engines.Engine.BestAsk` | engine/src/engine.rs:70-72 | the best ask of a registered instrument, and none for an unknown one |
| `Engines.MutexEngineHandle.Submit` | gateway/src/engine_handle.rs:93-105 | output, events and the top of the book after the command, as the single engine gives them |
| `Engines.MutexEngineHandle.TopOfBook` | gateway/src/engine_handle.rs:121-130 | the top of the book, or none for an unknown instrument |
| `ShardMaps.LastPinDecides` | engine/src/shard_map.rs:56-65 | the last pin of an instrument decides where it lives |
| `ShardMaps.PinnedByPin` | engine/src/shard_map.rs:56-65 | nothing is pinned but by a pin, and accepted pins are in range |
| `ShardMaps.FirstBadMeaning` | engine/src/shard_map.rs:56-65 | pins are refused exactly if one names no shard, and the first such one is named |
| `ShardMaps.PinsDecide` | engine/src/shard_map.rs:77-83 | a table made from pins sends an instrument to the shard of its last pin, and to the remainder by the shard count if it has none |
| `ShardMaps.ShardMap.AddOverride` | engine/src/shard_map.rs:87-100 | a pin is accepted exactly when its shard exists, replaces an earlier one, and is otherwise refused without effect |
| `ShardMaps.ShardMap.WithOverrides` | engine/src/shard_map.rs:56-65 | refuses zero shards and the first pin out of range, and otherwise holds the pins |
| `ShardMaps.ShardMap.ShardFor` | engine/src/shard_map.rs:77-83 | every instrument has an owner, it exists, the cast loses nothing, and it is the one that `ShardMaps.PinsDecide` names |
| `Shards.Shard.Process` | engine/src/shard.rs:114-150 | one request gives the reply and state of the single engine on the shard's books |
| `Routers.Router.constructor` | gateway/src/router.rs:86-98 | one shard for each id, disjoint, agreeing with the empty engine |
| `Routers.Router.Dispatch` | gateway/src/router.rs:113-119 | if the router agrees with a single engine on every instrument, the reply is that engine's and they still agree; only the shard that owns the instrument is touched |
| `Routers.Router.Submit` | gateway/src/router.rs:123-140 | the same for commands; no other kind of reply can come back |
| `Routers.Router.Register` | gateway/src/router.rs:142-150 | says whether the instrument was new to the single engine, and keeps agreeing |
| `ThreadLoops.RunConsumer` | engine/src/event_bus.rs:132-136 | until the last sender is gone, the consumer sees every event once, in order, queued before or sent while it runs |
| `ThreadLoops.Answer` | engine/src/shard.rs:216-231 | one envelope gets the single engine's reply at its channel, once its events have gone to the bus, and the shard's books become the engine's |
| `ThreadLoops.RunShard` | engine/src/shard.rs:215-233 | until the last sender is gone, each request, queued before or sent while the loop runs, is served in order of arrival and gets its own reply at its own channel; the events of all go to the bus in order |
| `Concurrent.OwnerFollowsPins` | gateway/src/router.rs:113-119 | the running system routes by the same rule |
| `Concurrent.StepKeepsSound` | gateway/src/router.rs:113-119 | every step keeps each shard to the requests and books routed to it, each waiting call in exactly its owner's hands, and no call open after shutdown |
| `Linearizability.TakeKeeps` | engine/src/shard.rs:216-217 | processing a request on its shard is serving it next on the single engine |
| `Linearizability.RunsAreLinearizable` | gateway/src/engine_handle.rs:92-131 | for any clients, shards, pins and interleaving, one order of the processed calls explains every reply by the single engine, and respects real time |
| `Histories.TimesAreTrue` | engine/src/shard.rs:253-264 | each call is one invocation by its client with that client's request, processed by one step of the shard that owns its instrument and ended by its own return, at the times that linearizability speaks of; no such step is missing or counted twice |
| `Histories.ClientsCanCall` | gateway/src/engine_handle.rs:92-131 | in every reachable state a client can make any request exactly if the router is not dropped and its last call came back |
| `BusProtocol.EventsAreHistory` | engine/src/shard.rs:218-228 | the events of the replies to any sequence of requests are, by instrument, all events of the books they lead to |
| `BusProtocol.EventsArriveInOrder` | engine/src/event_bus.rs:22-30 | for each instrument, consumed, queued and not yet published events are together those of the single engine, numbered from 0 with no gap or repeat until the numbers saturate; a client with a reply finds its events on the bus |
| `BusProtocol.ShutdownLosesNothing` | engine/src/event_bus.rs:121-136 | once the consumer has left, it has seen every event of the single engine, and every call has returned |
| `Liveness.CallsApproachTheirReturn` | engine/src/shard.rs:253-264 | a call under way waits for one step, which can be taken and brings it nearer to its return, counted in requests ahead in its shard's queue, events to publish, answer and return; no other step changes that distance or the step it waits for |
| `Liveness.CallsReturn` | engine/src/shard.rs:253-264 | every reachable state has a schedule without new calls on which all calls return |
| `Liveness.ShutdownIsReachable` | engine/src/event_bus.rs:121-136 | every reachable state has a schedule without new calls on which every call returns, all shards exit and the consumer leaves |
| `EndToEnd.ServedBooksAreFaithful` | engine/src/engine.rs:39-60 | every book of an engine that served fresh orders has a faithful log |
| `EndToEnd.ShardBooks` | engine/src/shard.rs:216-217 | in every reachable state the owner of an instrument holds the book of a run of the commands processed for it so far |
| `EndToEnd.ConsumerRebuildsEveryBook` | engine/src/events.rs:3-7 | after shutdown, replaying what the consumer saw of an instrument rebuilds the book of the single engine that served the same calls, and that book is the run of the commands for the instrument |

## Left out

- Orderbooks.Orderbook.CanFill: a debug build panics when the sum of a level overflows; only the wrapping sum of release builds is modelled.
- EventSourcing.LogIsTheTruth: events do not carry order types, so the replayed orders equal the live ones up to their type.
- Mirror.FlipRun: prices are unbounded integers here; the smallest `i32` has no negation in the program.
- Linearizability.RunsAreLinearizable: channels are reliable queues and threads stay alive; a shard thread that died, and the panic of the router on it, are not modelled.
- Liveness.CallsApproachTheirReturn: says that the awaited step is possible and helps, not that a scheduler takes it.
- ThreadLoops.RunShard: what other shards send to the bus meanwhile is in `Concurrent`, not here.
- BusProtocol.ShutdownLosesNothing: the router is dropped only while no call is under way, which sole ownership enforces in the program.
- The per-price cache of quantities and counts in the book, which no query, decision or event reads.
- Shards without an event bus: they publish nothing and otherwise run the same loop.
- Handles' plain forwards: registering and snapshots of the locked handle, snapshots and best prices of the router.
- Counts of live orders and of instruments, the list of registered instruments, filled quantity and other accessors.
- Account and request ids, which the engine carries but never uses.
- HTTP handlers, JSON models, parsing, configuration and start-up, and the consumer that writes to standard error.
- Pins added to a routing table after the router was built: the router owns its table and never changes it.
