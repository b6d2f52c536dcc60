# Verification of the trading client's state and protocols

This project models, in Dafny 4.11, the state a client of the exchange keeps and the concurrent protocols that
feed it, and proves what they are for:

- the order-by-order book (`L3Book.dfy`), with the id map, the two price ladders and the stored list handles as
  real heap structures, against a plain flat list of resting orders (`FlatBook.dfy`); its aggregation to the
  price-level book (`L2Book.dfy`, `Aggregation.dfy`) and its rebuilding from a snapshot (`Snapshot.dfy`);
- the sequence lock over the shared price pair (`Seqlock.dfy`), one atomic step per load or store, any number of
  readers, both as its comment intends the loop and as the loop is written;
- the WebSocket write pump (`WritePump.dfy`);
- the account ledger (`Account.dfy`), many accounts trading with each other (`Conservation.dfy`), and the ledger
  beside the book on one stream of events (`AccountBook.dfy`);
- the strategies' arithmetic and loops: the native market maker's tick, closed over the exchange
  (`AlgoClient.dfy`, `MMNative.dfy`, `QuotingTick.dfy`), the advanced market maker's signals, quotes, takes and
  markouts (`MMAdvanced.dfy`, `AdvancedSignals.dfy`, `AdvancedQuotes.dfy`, `Markouts.dfy`), the stress trader's round-trip accounting and its rate controller
  (`RttAccounting.dfy`, `StressReport.dfy`), over `Rounding.dfy` and `Permutations.dfy`;
- the CSV reader with a printer that it undoes (`Csv.dfy`).

`Types.dfy` holds the enumerations and tables of the message schema. Each class follows the source's own form and is
proved against a specification function on values; the whole-run theorems are about those functions.

How the source is read:

- Prices and other doubles of the strategies are `real`. Quantities, cash and ids are unbounded integers. Random
  draws and clock readings are inputs of the methods, arbitrary in every theorem.
- The sequence lock is proved under sequential consistency and with an unbounded sequence counter.
- Mutexes make the sections they guard single steps; what runs between two guarded sections is interleaved.
- `std::sort` is a function that returns the sorted samples. The percentile positions are the integers n*90/100 and
  n*99/100; that truncating the products of the size with the doubles 0.90 and 0.99 gives the same integers is not
  part of the model.

Where the code does not do what it promises:

- `include/SharedMarketData.hpp:29` says "write in progress, try again", but `continue` in a do/while jumps to the
  test on line 35, which compares with a stale or uninitialised `seq2`. `Seqlock.OddExitReturnsTornPair` is a run from
  equal prices, two updates long, in which a call returns a pair that is never published;
  `Seqlock.OddExitReturnsNothingRead` one in which a call returns what its caller's variables held, which is a
  publication only by coincidence. `Seqlock.CodeExitsEvenIff` says over all runs exactly when every call exits on an
  even number; every call then returns a publication, but an odd exit need not be torn (`Seqlock.OddExitCanBeWhole`).
  `Seqlock.ExitIsOfItsLoads` says for every exit, odd or even, which publications its two prices belong to.
- `agents/stress-trader.cpp:393-399` means to treat a step without responses as congestion, but the counters it
  tests were both reset at the start of the same report. `StressReport.SilenceIsNoticedIff` gives the exact condition;
  in all other silent steps the sending rate goes up, however many orders the step has sent
  (`StressReport.SilentStep`).
- After a partial fill the client's open order carries the filled quantity, not what is left
  (`include/ClientAccount.hpp:45-57`); `AccountBook.OpenQuantityIsRestingIff` says over whole streams when the two
  coincide.
- A response that arrives before its request's send time is recorded is not measured, and the request stays pending
  (`RttAccounting.EarlyResponseIsLost`); `RttAccounting.MeasuredIffFound` says exactly which requests are measured.
- After a partial fill of at least all that is left the book drops the order and the client keeps it
  (`AccountBook.OverSizedFillStaysOpen`); `AccountBook.OpenOrdersAreRestingOrders` says exactly which streams keep the
  two in agreement.
- `README.stress` describes a controller that aims at 50% ring occupancy; the code controls on latency, and so does
  the model.
- A CSV row of ten columns with an empty last one is skipped, since splitting drops an empty last field;
  `Csv.JunkIff` says exactly which rows are skipped.

## Model

| member | source | states |
|---|---|---|
| `FlatBook.WithoutMembers` | include/L3Book.hpp:97-114 | Removing an id leaves exactly the orders with other ids, and changes nothing if the id is unknown |
| `FlatBook.QueueWithout` | include/L3Book.hpp:97-114 | Removing an id from the flat list removes it from each level's queue and reorders nothing |
| `FlatBook.ApplyKeepsWellFormed` | include/L3Book.hpp:34-95 | Every message keeps ids distinct and every resting order on a real side |
| `FlatBook.RunWellFormed` | include/L3Book.hpp:34-95 | After every stream of messages ids are distinct and every resting order has a side |
| `FlatBook.RunInOrder` | include/L3Book.hpp:44-94 | After every stream the list is sorted by the time each order last joined the back of a level |
| `FlatBook.QueuesFirstInFirstOut` | include/L3Book.hpp:28-30 | Over every stream, whoever stands ahead in a level's queue joined that level earlier |
| `L3BookModule.OrderList.PushBack` | include/L3Book.hpp:49-51 | On the linked list, push_back appends one fresh node and returns it as the handle; all links stay consistent |
| `L3BookModule.OrderList.Erase` | include/L3Book.hpp:104 | Erasing through the handle, touching only two neighbours, is removal of that one position of the queue |
| `L3BookModule.Ladder.Links` | include/L3Book.hpp:165-166 | Walking `next` from the sentinel visits the queue front to back and ends |
| `L3BookModule.Ladder.Erase` | include/L3Book.hpp:101-112 | Erases one node of one level, drops the level exactly when it becomes empty, leaves every other level alone |
| `L3BookModule.Ladder.PushBack` | include/L3Book.hpp:49-51 | Appends to one level, made if missing, leaves every other level alone |
| `L3BookModule.L3Book.constructor` | include/L3Book.hpp:24-32 | A new book is valid and empty |
| `L3BookModule.L3Book.RemoveFromQueues` | include/L3Book.hpp:97-114 | The queues and remaining handles become those of the flat list without the order; the id map is untouched |
| `L3BookModule.L3Book.Update` | include/L3Book.hpp:34-95 | One message takes the heap structure to the flat list after that message, keeps id map, queues and handles in agreement, and leaves all other orders' records and handles as they were |
| `L3BookModule.HandleIsOnlyOccurrence` | include/L3Book.hpp:16-22 | In every valid book each id is queued exactly once, at its stored side and price, in the node its handle names; a level exists exactly when it has an order |
| `L3BookModule.LevelListedIff` | include/L3Book.hpp:28-30 | A price level exists exactly when an order rests on it |
| `L3BookModule.L3Book.HandlesResolve` | include/L3Book.hpp:16-30 | Every stored handle is a node of its own order's level |
| `L3BookModule.L3Book.LevelTotal` | include/L3Book.hpp:162-172 | The total that display computes by walking a queue is the resting quantity of that level, and every id lookup on the way succeeds |
| `L3BookModule.TotalOfQueue` | include/L3Book.hpp:196-207 | The quantities looked up along a level's queue add up to the level's resting quantity |
| `L2BookModule.ApplySetsOneLevel` | include/L2Book.hpp:19-39 | A message sets exactly one level and lists it exactly if the quantity is positive; a snapshot start empties the book |
| `L2BookModule.L2Book.Update` | include/L2Book.hpp:19-39 | The maps after an update are those of the specification, with no zero entry |
| `Aggregation.UntouchedTotal` | include/L3Book.hpp:34-95 | A message changes the total of no level other than the one its order rested on and the one it names |
| `Aggregation.RelayKeepsAgreement` | include/L3Book.hpp:34-114 | Forwarding the new totals of at most two levels after one message keeps level-2 quantities equal to level-3 sums |
| `Aggregation.RelayRunAgrees` | include/L2Book.hpp:19-39 | Over every level-3 stream the forwarded level-2 book equals the per-level sums, zero quantities included |
| `Aggregation.RelayRunListsSameLevels` | include/L2Book.hpp:26-38 | If quantities are positive, both books also list exactly the same levels |
| `Snapshot.SnapshotWellFormed` | include/LogUtil.hpp:83-84 | Any level-by-level image of a book has distinct ids, like the book |
| `Snapshot.ReplayGivesImage` | include/L3Book.hpp:37-53 | On any book, a reset and one New per order leave exactly the transmitted orders |
| `Snapshot.ReplayRebuilds` | include/L3Book.hpp:37-53 | For every reachable book and every snapshot of it, replaying onto any other book restores all queues and records |
| `Snapshot.LevelByLevelIsSnapshot` | include/L3Book.hpp:37-53 | Listing the levels one after the other, in any order, is such a snapshot |
| `Snapshot.Feed` | include/L3Book.hpp:34-95 | Feeding a whole stream to the heap book gives the flat list of that stream |
| `Seqlock.StepKeepsInv` | include/SharedMarketData.hpp:14-37 | Every step of the writer or a reader keeps the lock's invariant; sequence and history only grow |
| `Seqlock.RunInv` | include/SharedMarketData.hpp:14-37 | The invariant holds after every schedule, for any number of readers, under either reading of the loop |
| `Seqlock.EvenExitIsLinearizable` | include/SharedMarketData.hpp:25-37 | Every call that exits on an even number returns one published pair, number/2 in the writer's history, and that pair was in memory, whole and the latest, at an instant of the call |
| `Seqlock.ResultsNeverGoBack` | include/SharedMarketData.hpp:25-37 | One reader's successive results never go back in the writer's history |
| `Seqlock.IntendedExitsEven` | include/SharedMarketData.hpp:27-35 | The loop as the comment intends it only ever exits on an even number |
| `Seqlock.CodeDeviatesExactlyOnStaleOdd` | include/SharedMarketData.hpp:29-35 | One step of the loop as written differs from the intended one exactly when it meets an odd number equal to what seq2 still holds |
| `Seqlock.CodeExitsEvenIff` | include/SharedMarketData.hpp:27-36 | Over every run of the loop as written, all calls exit on even numbers if and only if no step ever meets a stale odd number; the run is then one of the intended loop |
| `Seqlock.ExitIsOfItsLoads` | include/SharedMarketData.hpp:25-37 | Every call that loads the prices, odd exit or even, returns the current price of one publication and the last price of the same or a later one: those in memory at the moments of its two loads; if they are the same, exactly that publication |
| `Seqlock.OddExitCanBeWhole` | include/SharedMarketData.hpp:27-36 | A run in which a call exits on 1 with a publication: an odd exit is not always torn |
| `Seqlock.OddExitReturnsTornPair` | include/SharedMarketData.hpp:27-36 | From equal prices, one update and a read overtaken by a second one: the call exits on 3 with a pair that is published neither before nor after |
| `Seqlock.OddExitReturnsNothingRead` | include/SharedMarketData.hpp:26-35 | A run in which the uninitialised seq2 lets the call return without having read anything; what it returns is a publication only if the caller's variables held one |
| `Seqlock.QuietReadReturnsLatest` | include/SharedMarketData.hpp:25-37 | Without interference a call ends after one pass and returns the latest publication |
| `Seqlock.UpdateStepsPublish` | include/SharedMarketData.hpp:14-22 | One whole update adds exactly one publication: the new price with the former current price |
| `Seqlock.SharedMarketData.UpdatePrice` | include/SharedMarketData.hpp:14-22 | The writer's code leaves the memory that its six atomic steps leave |
| `Seqlock.ReadPrice` | include/SharedMarketData.hpp:25-37 | The loop as written, whatever memory each of its loads finds, returns exactly what the reader's atomic steps return, and goes on exactly while they do |
| `WritePump.StepKeepsInv` | src/SimpleWSClient.cpp:87-122 | Every post, handler or completion keeps the pump's invariant |
| `WritePump.RunInv` | src/SimpleWSClient.cpp:87-122 | On every run at most one write is outstanding, the flag is set exactly while one is, and posted = finished ++ in flight ++ queued ++ to be queued, in order, each with its own mode; idle with a queue only after a failure |
| `WritePump.ProgressDecreases` | src/SimpleWSClient.cpp:99-121 | Each handler without a failure brings the pump exactly one step closer to drained |
| `WritePump.ProgressPossible` | src/SimpleWSClient.cpp:99-121 | With work left, progress is possible exactly unless the pump sits idle with nothing posted, which only a failure causes |
| `WritePump.Drains` | src/SimpleWSClient.cpp:87-122 | Error-free runs without new posts write everything posted, in order, in a number of steps known in advance |
| `WritePump.StuckUntilNextPost` | src/SimpleWSClient.cpp:117-120 | After a failure the queued messages stay where they are until somebody posts again |
| `WritePump.SimpleWSClient.SendInternal` | src/SimpleWSClient.cpp:87-88 | A post is the model's Post event and keeps the invariant |
| `WritePump.SimpleWSClient.RunPostedHandler` | src/SimpleWSClient.cpp:88-96 | The posted handler is the model's RunPosted event and keeps the invariant |
| `WritePump.SimpleWSClient.DoWriteNow` | src/SimpleWSClient.cpp:99-114 | Begins the write of the queue's front in that message's own mode, or goes idle |
| `WritePump.SimpleWSClient.OnWritten` | src/SimpleWSClient.cpp:114-121 | The completion handler is the model's Complete event, for success and failure, and keeps the invariant |
| `AccountModule.FillAddsDelta` | include/ClientAccount.hpp:142-151 | A fill adds the signed quantity to its symbol and the negated signed notional to cash, and nothing else |
| `AccountModule.PositionIsSyncPlusFills` | include/ClientAccount.hpp:21-94 | Over every stream each position, and cash, is its last synced value plus the signed fills since |
| `AccountModule.PermutedFills` | include/ClientAccount.hpp:45-67 | Two stretches of responses between syncs with the same fills, in any order and among any other responses, give the same positions and cash |
| `AccountModule.OnlyFillsMatter` | include/ClientAccount.hpp:32-83 | Positions and cash after any responses are those after their fills alone |
| `AccountModule.PermutedResponses` | include/ClientAccount.hpp:21-84 | Any permutation of the responses between two syncs gives the same positions and cash |
| `AccountModule.OpenOrdersHoldLastWord` | include/ClientAccount.hpp:29-83 | Over every stream open orders have distinct ids, and an id is open exactly if its last effective response left it open, with that response as its entry |
| `AccountModule.OpenOrdersInOrder` | include/ClientAccount.hpp:29-83 | Open orders stand in the order of their latest insertion |
| `AccountModule.ClientAccount.FindOrder` | include/ClientAccount.hpp:29-30 | The search returns the first entry with the id, or the end |
| `AccountModule.ClientAccount.UpdatePositionAndCash` | include/ClientAccount.hpp:142-151 | The position map becomes that of the specification of one fill |
| `AccountModule.ClientAccount.HandleOrderResponse` | include/ClientAccount.hpp:21-84 | The ledger becomes that of the specification; a missing response changes nothing |
| `AccountModule.ClientAccount.HandlePositionResponse` | include/ClientAccount.hpp:90-94 | A sync sets one key and leaves the open orders |
| `AccountModule.ClientAccount.Clear` | include/ClientAccount.hpp:135-139 | A reset gives the empty ledger |
| `Conservation.StepConserves` | include/ClientAccount.hpp:45-67 | A trade, a delivery or any other response leaves every market-wide total as it was |
| `Conservation.RunConserves` | include/ClientAccount.hpp:142-151 | For any number of accounts, trades and delivery interleaving, the total of every symbol and of cash plus undelivered legs never changes |
| `Conservation.SettledMarketConserves` | include/ClientAccount.hpp:142-151 | Once all legs are delivered the accounts together hold what they held before |
| `AccountBook.OpenOrdersAreRestingOrders` | include/ClientAccount.hpp:32-74 | Fed the same events, the ledger's open ids are at all times the book's resting ids if and only if every partial fill is of a known order for less than what is left, and every status of a known order |
| `AccountBook.SameIdsAfter` | include/ClientAccount.hpp:32-83 | From agreement, one event of any kind leads to agreement if and only if it is such an event |
| `AccountBook.OpenAfter` | include/ClientAccount.hpp:32-83 | After a status, New, Replaced or partial fill the order is open, after a full fill or a cancel it is not; any other kind, and any other order, changes nothing |
| `AccountBook.OverSizedFillStaysOpen` | include/ClientAccount.hpp:45-57 | A partial fill of at least all that is left leaves the order open at the client and gone from the book |
| `AccountBook.RestingIsFlows` | include/L3Book.hpp:44-94 | Resting quantity = added + replace changes - executed - withdrawn |
| `AccountBook.PositionIsConsumedQuantity` | include/ClientAccount.hpp:142-151 | The position is the signed quantity that the fills took out of the book |
| `AccountBook.OpenQuantityAfterPartialFill` | include/ClientAccount.hpp:45-57 | After a partial fill the open order shows the filled quantity; it equals what is left exactly if half was filled |
| `AccountBook.OpenQuantityIsRestingIff` | include/ClientAccount.hpp:32-57 | Over every stream that keeps the ids in agreement, an open order shows the resting quantity if and only if its last response placed or replaced it, was a fill of half of what was left, or a status with the resting quantity |
| `Rounding.RoundIsNear` | agents/mm-native.cpp:106 | std::round moves a number by at most a half |
| `Rounding.RoundIsTheNearest` | agents/mm-native.cpp:106 | A number rounds to n if and only if n is its nearest integer, a tie going away from zero |
| `Rounding.RoundIsMonotonic` | agents/mm-advanced.cpp:204-205 | std::round keeps order |
| `Rounding.RoundShift` | agents/mm-advanced.cpp:204-205 | Shifting up by n shifts the rounded value by n, or by n+1 across zero |
| `AlgoClientModule.SentIdsAreUnique` | src/AlgoTradingClient.cpp:67-74 | No two requests a client ever sent share an execution id, and no two new orders an order id; all carry its client number |
| `AlgoClientModule.SentContent` | src/AlgoTradingClient.cpp:67-80 | A request is sent as asked if and only if action, symbol, side, type, price and both quantities are those asked for, the execution id is the fresh one, and the order id is that id for a new order and the named one otherwise |
| `AlgoClientModule.AlgoTradingClient.SendOrderRequest` | src/AlgoTradingClient.cpp:67-80 | Exactly one id is used; what goes out has the content asked for, this client's number, the time, that id as execution id, and for a new order as order id too; all ids ever sent keep rising |
| `AlgoClientModule.AlgoTradingClient.PlaceOrder` | src/AlgoTradingClient.cpp:35-45 | Sends one New request, spelled out field by field; a visible quantity of 0 means all of it |
| `AlgoClientModule.AlgoTradingClient.NewLimitOrder` | src/AlgoTradingClient.cpp:27-29 | Sends one fully visible limit order at the price, spelled out field by field |
| `AlgoClientModule.AlgoTradingClient.NewMarketOrder` | src/AlgoTradingClient.cpp:31-33 | Sends one market order at price 0, fully visible |
| `AlgoClientModule.AlgoTradingClient.ReplaceOrder` | src/AlgoTradingClient.cpp:47-56 | Sends one Modify request for the order with the new price and quantity, spelled out field by field |
| `AlgoClientModule.AlgoTradingClient.CancelOrder` | src/AlgoTradingClient.cpp:58-65 | Sends one Cancel request for the order, spelled out field by field |
| `MMNativeModule.QuoteIsDistant` | agents/mm-native.cpp:105-106 | Whatever the noise, the rounded quote is at least 1 away from the estimation on its own side |
| `MMNativeModule.DecideIsSound` | agents/mm-native.cpp:99-124 | No draw leaves an order closer than 1, or one deeper than 60 unanswered; a moved order is at least 1 away |
| `MMNativeModule.QuotePriceByDraw` | agents/mm-native.cpp:105-106 | A quote lies within a half of the point 1.5 plus the size of its own noise draw below (bid) or above (ask) the estimation |
| `MMNativeModule.DecideByDraws` | agents/mm-native.cpp:99-124 | An order with a side is moved if and only if its flicker draw is below 0.15 or it is closer than 1, to the price of its noise draw; of the others exactly those deeper than 60 are cancelled |
| `MMNativeModule.AdjustmentsAdjust` | agents/mm-native.cpp:99-124 | The adjusting requests are, in the order of the open orders and once each, exactly the Modify and Cancel requests of the orders to be moved or cancelled; a moved order keeps its quantity |
| `MMNativeModule.MarketMakerNative.AdjustOrder` | agents/mm-native.cpp:99-124 | One open order is moved, cancelled or kept as its draws decide, spelled out in prices and draws, with exactly the request for that |
| `MMNativeModule.MarketMakerNative.AdjustAll` | agents/mm-native.cpp:99-124 | The two counters are the numbers of orders that stay per side, and the requests are those of the decisions, in order |
| `MMNativeModule.MarketMakerNative.Replenish` | agents/mm-native.cpp:127-137 | Places exactly the orders missing to twelve, each at least 1 away from the estimation and within a half of 1.5 plus the size of its own noise draw away from it, with its own quantity draw |
| `MMNativeModule.MarketMakerNative.ManageOrders` | agents/mm-native.cpp:92-138 | One tick sends the adjustments, then the missing bids, then the missing asks, with consecutive fresh ids, each decided and priced by its own draws as spelled out there |
| `QuotingTick.FoldFinds` | include/ClientAccount.hpp:32-74 | After responses with distinct ids, an order is what its response says, or what it was before |
| `QuotingTick.FoldCounts` | include/ClientAccount.hpp:32-74 | The orders per side change by the sum of the single responses' effects, whatever their order |
| `QuotingTick.PermutedDistinct` | src/AlgoTradingClient.cpp:67-74 | No delivery order makes two acknowledgements name the same order |
| `QuotingTick.AcksDistinct` | agents/mm-native.cpp:92-138 | The acknowledgements of one tick name each order at most once, as long as the ids about to be used are not open |
| `QuotingTick.TickClosesLoop` | agents/mm-native.cpp:92-138 | Acknowledged in any order, a tick ends with exactly max(12, stayed) orders per side, every bid at least 1 below and every ask at least 1 above the estimation, so bids and asks at least 2 apart, with distinct ids that were open before or are the tick's own |
| `QuotingTick.TicksKeepLoopClosed` | agents/mm-native.cpp:92-138 | The same after any number of acknowledged ticks, with any responses in between that name no id still to be used |
| `MMAdvancedModule.TopLevels` | agents/mm-advanced.cpp:124-133 | The levels are of the book, strictly best first, at most five; one is left out only if five are listed that are all better |
| `MMAdvancedModule.DepthIsOfTop` | agents/mm-advanced.cpp:137-155 | Any such listing adds up to the depth, begins with the best price, and is empty only for an empty side |
| `MMAdvancedModule.MicroPriceBetween` | agents/mm-advanced.cpp:143-145 | The micro-price lies between the two best prices, crossed or not |
| `MMAdvancedModule.OnBookKeepsInv` | agents/mm-advanced.cpp:117-155 | A level-2 message keeps micro-price and imbalance in range; the denominators are positive as no level is empty |
| `MMAdvancedModule.OnTradeKeepsInv` | agents/mm-advanced.cpp:52-72 | A trade keeps the volumes non-negative and the toxicity within [-1, 1] |
| `MMAdvancedModule.SignalsStayInRange` | agents/mm-advanced.cpp:117-166 | Over all feeds: no empty level is stored, the micro-price lies between the recorded best prices, imbalance and toxicity lie within [-1, 1] |
| `AdvancedSignals.FlowSignalsOfFeed` | agents/mm-advanced.cpp:52-72 | Over every feed, buying (selling) volume is the sum over the trades that reached (did not reach) half the sum of the best prices recorded just before them, of quantity times 0.95 to the number of trades from that one on; toxicity is (buy - sell)/(buy + sell) of those sums, 0 while they are |
| `AdvancedSignals.BookSignalsOfFeed` | agents/mm-advanced.cpp:117-155 | Over every feed, best prices and quantities, micro-price and imbalance are those of the last book that had both sides after a level-2 message, the imbalance that of its five best levels a side; all are 0 while there was none |
| `AdvancedQuotes.TargetsAre` | agents/mm-advanced.cpp:186-205 | Each target is the integer nearest to micro-price - 0.5 inventory, less or plus 2 + 1.5 imbalance + 3 toxicity + 0.1 inventory, these three by their size |
| `MMAdvancedModule.TargetsApart` | agents/mm-advanced.cpp:186-205 | After rounding the ask target is at least 4 above the bid target |
| `MMAdvancedModule.TargetsFallWithInventory` | agents/mm-advanced.cpp:189-205 | Both targets never rise with inventory, although the spread widens with its size |
| `MMAdvancedModule.QuotedNearTarget` | agents/mm-advanced.cpp:214-234 | After the loop every quoted price, kept or new, is within 1 of its side's target |
| `MMAdvancedModule.QuotesApart` | agents/mm-advanced.cpp:186-235 | After the loop every quoted bid of the symbol is at least 2 below every quoted ask |
| `AdvancedQuotes.CancelsExactlyPulled` | agents/mm-advanced.cpp:214-230 | The cancels are, in the order of the open orders and once each, exactly those of the symbol's orders whose side is not quoted or whose price is more than 1 from its target |
| `AdvancedQuotes.QuoteRequestsAre` | agents/mm-advanced.cpp:207-234 | For any open orders the requests are those cancels, then exactly one fully visible bid of 20 at the target if and only if toxicity > -0.8 and no open bid of the symbol is within 1 of it, then the same for the ask with toxicity < 0.8 |
| `AdvancedQuotes.SideIsQuotedIff` | agents/mm-advanced.cpp:207-234 | With distinct ids open, a side is quoted at some price after the requests if and only if toxicity > -0.8 (bid) or < 0.8 (ask) |
| `MMAdvancedModule.UncrossedTakesNothing` | agents/mm-advanced.cpp:237-247 | Over all feeds nothing is taken while the recorded top of book is uncrossed |
| `MMAdvancedModule.TakesExactlyWhenCrossedEnough` | agents/mm-advanced.cpp:240-246 | Over all feeds, a buy (sell) is sent if and only if the flow is strongly one-sided that way and the book is crossed by more than a quantity-weighted half tick |
| `MMAdvancedModule.SignalsAreOfTheTop` | agents/mm-advanced.cpp:136-155 | Over all feeds the micro-price is that of the recorded top of book, and before the first two-sided book there is no imbalance |
| `MMAdvancedModule.CrossedFeedTakes` | agents/mm-advanced.cpp:237-247 | A feed on which the take does happen |
| `MMAdvancedModule.MarketMakerAdvanced.OnL2Update` | agents/mm-advanced.cpp:38-50 | Own symbol: book and signals become those of the specification, and exactly the orders swept by the new signals are cancelled; other symbols change nothing |
| `MMAdvancedModule.FadesExactlySwept` | agents/mm-advanced.cpp:168-184 | The protection cancels, in their order and once each, exactly the symbol's asks more than 2 below the micro-price under toxicity > 0.6 and bids more than 2 above it under toxicity < -0.6, and never both |
| `MMAdvancedModule.MarketMakerAdvanced.FastCancelProtection` | agents/mm-advanced.cpp:168-184 | Sends those cancels in order with fresh ids, and counts them |
| `MMAdvancedModule.MarketMakerAdvanced.UpdateMicrostructureSignals` | agents/mm-advanced.cpp:117-155 | The signals become those of the book, and stay if one side is empty |
| `MMAdvancedModule.MarketMakerAdvanced.OnL3Update` | agents/mm-advanced.cpp:52-72 | Only fills of the own symbol change the signals, as one trade of the feed does (AdvancedSignals.FlowSignalsOfFeed says what feeds come to) |
| `MMAdvancedModule.MarketMakerAdvanced.PullQuotes` | agents/mm-advanced.cpp:214-230 | Cancels exactly the own quotes that may not stay, and reports exactly whether a side keeps one |
| `MMAdvancedModule.MarketMakerAdvanced.ManageQuotes` | agents/mm-advanced.cpp:186-235 | Sends, with consecutive fresh ids, exactly the cancels and new quotes that AdvancedQuotes.QuoteRequestsAre describes, for the account's inventory |
| `MMAdvancedModule.MarketMakerAdvanced.OpportunisticTake` | agents/mm-advanced.cpp:237-247 | Sends the one market order the conditions call for, or nothing |
| `MarkoutsModule.TickKeepsInv` | agents/mm-advanced.cpp:249-272 | An evaluation keeps: evaluated exactly by age, in order of time, totals equal to the realized edge |
| `MarkoutsModule.DroppedIsEvaluated` | agents/mm-advanced.cpp:269-271 | What is dropped has had both evaluations |
| `MarkoutsModule.MarkoutsComplete` | agents/mm-advanced.cpp:74-92 | With a clock that never goes back every fill event is marked for a horizon if and only if an evaluation came after it, to the micro-price of the first one that did; dropped is exactly what was more than 10 seconds old at the last evaluation; each total is the sum over the fill events of (mark - price) times quantity for a Buy and (price - mark) times quantity otherwise |
| `MarkoutsModule.RunMarks` | agents/mm-advanced.cpp:253-266 | Over every run the history has one record per fill event, in order, with its time, side, price, quantity and micro-price, and exactly its first micro-prices more than 1 and 5 seconds later |
| `MarkoutsModule.EvaluatedOnce` | agents/mm-advanced.cpp:253-266 | No later event re-evaluates or changes an evaluation that was taken |
| `MarkoutsModule.NothingOldSurvives` | agents/mm-advanced.cpp:268-271 | After an evaluation no fill older than ten seconds is left |
| `MarkoutsModule.MarkoutTracker.OnFill` | agents/mm-advanced.cpp:82-88 | One record is appended; its time, side, price, quantity and micro-price are the parameters, and it is not yet evaluated |
| `MarkoutsModule.MarkoutTracker.EvaluateRecord` | agents/mm-advanced.cpp:254-265 | One record is evaluated for the horizons it has reached, and the totals grow by what that realizes |
| `MarkoutsModule.MarkoutTracker.EvaluateMarkouts` | agents/mm-advanced.cpp:249-272 | Deque and totals become those of the specification of one evaluation |
| `RttAccounting.StepKeepsInv` | agents/stress-trader.cpp:91-128 | Every step of the sending, io or timer thread keeps ids ordered, times in the past, statistics true and requests accounted for |
| `RttAccounting.RunInv` | agents/stress-trader.cpp:91-128 | The same over every interleaving of those steps |
| `RttAccounting.OneSamplePerRequest` | agents/stress-trader.cpp:91-116 | In every interleaving an execution id yields at most one sample, over all steps and reports |
| `RttAccounting.RecordedIsAccountedFor` | agents/stress-trader.cpp:91-128 | Recorded requests = pending + in hand + accumulated + reported |
| `RttAccounting.StatsAreOfSamples` | agents/stress-trader.cpp:109-115 | Whenever the lock is free, count, sum and maximum are those of the step's samples |
| `RttAccounting.PendingStays` | agents/stress-trader.cpp:96-103 | Nothing but its own response takes a request out of the pending ones |
| `RttAccounting.EarlyResponseIsLost` | agents/stress-trader.cpp:120-128 | The witness: a response that overtakes the recording of its request yields no sample, and the request stays pending |
| `RttAccounting.MeasuredIffFound` | agents/stress-trader.cpp:91-128 | Over every interleaving, a request is in hand, sampled or reported if and only if its response once came while it was pending |
| `RttAccounting.MeasuredOrPending` | agents/stress-trader.cpp:91-128 | A recorded request is measured if and only if it is no longer pending |
| `RttAccounting.SamplesAreRoundTrips` | agents/stress-trader.cpp:105-107 | Over every interleaving, each sample is the time on the clock from the recording of its request to the measuring of its response, in microseconds |
| `RttAccounting.RttTracker.RecordSend` | agents/stress-trader.cpp:123-127 | The send times become those after the step Record |
| `RttAccounting.RttTracker.MatchResponse` | agents/stress-trader.cpp:96-104 | Finds and removes the send time in one section, as the step Match; an unknown id changes nothing |
| `RttAccounting.RttTracker.AccumulateRtt` | agents/stress-trader.cpp:109-115 | Adds one sample to list, count, sum and maximum together, as the step Accumulate |
| `RttAccounting.RttTracker.OnOrderResponse` | agents/stress-trader.cpp:74-117 | Account, counters and heartbeat take every response; a New, Replaced or Cancelled response whose id is pending takes exactly that id out and adds exactly one sample, of its round trip; any other changes neither send times nor statistics |
| `RttAccounting.SampledIffNamed` | agents/stress-trader.cpp:91-116 | Over any undisturbed responses, a pending request is sampled, and no longer pending, if and only if a New, Replaced or Cancelled response named it; nothing else is sampled |
| `RttAccounting.RttTracker.MeasureResponse` | agents/stress-trader.cpp:92-116 | Undisturbed, the two sections do what the steps Match, Measure and Accumulate do from any state |
| `RttAccounting.RttTracker.Drain` | agents/stress-trader.cpp:341-364 | Hands over the step's numbers and leaves an empty step, as the step Report |
| `StressReport.SortSorts` | agents/stress-trader.cpp:367 | The sort gives an ascending permutation |
| `StressReport.PercentileIsTheRank` | agents/stress-trader.cpp:366-374 | A value is the percentile if and only if it has that rank among the samples as collected; it is a sample, and the clamp is never needed |
| `StressReport.PercentileSplits` | agents/stress-trader.cpp:366-374 | More than 90% (99%) of the samples are no larger than the percentile, and at most 90% (99%) are smaller |
| `StressReport.RowIsOrdered` | agents/stress-trader.cpp:344-374 | 0 <= p90 <= p99 <= max and 0 <= average <= max |
| `StressReport.AverageIsOfSamples` | agents/stress-trader.cpp:344-346 | The average times the number of samples is their sum, and 0 without samples |
| `StressReport.IntervalStaysInBounds` | agents/stress-trader.cpp:401-415 | One step changes the interval by a factor within [0.8, 2] and never below 1 |
| `StressReport.NextIntervalIs` | agents/stress-trader.cpp:389-415 | Up to a latency of 1000000 the interval is multiplied by 0.8 + 0.2 latency/1000000 and floored at 1, up to 5000000 by 1 + 0.2 latency/1000000, from there on by 2 |
| `StressReport.IntervalFollowsLatency` | agents/stress-trader.cpp:401-415 | The interval rises if and only if latency exceeds the target, and falls if and only if it is below and the interval above 1 |
| `StressReport.IntervalIsMonotone` | agents/stress-trader.cpp:401-415 | A higher latency or a longer interval never leads to a shorter next interval |
| `StressReport.RunStaysInBounds` | agents/stress-trader.cpp:401-415 | Over every run of any latencies the interval stays between the run of zero latencies and doubling each step |
| `StressReport.ZeroLatencyRun` | agents/stress-trader.cpp:401-415 | Under zero latency the interval after k steps is max(1, start * 0.8^k) |
| `StressReport.FloorIsReached` | agents/stress-trader.cpp:412-414 | From any start interval the floor is reached within 4 * (start - 1) steps of zero latency |
| `StressReport.FloorIsReachedIn31` | agents/stress-trader.cpp:430 | From the initial 1000 the floor is reached at step 31 and not earlier |
| `StressReport.SilenceIsNoticedIff` | agents/stress-trader.cpp:393-399 | The interval doubles for a step without responses if and only if an order is sent and none answered while the report itself runs; otherwise the average decides, and 0 lets it shrink by 0.8 |
| `StressReport.SilentStep` | agents/stress-trader.cpp:324-415 | The witness: a step that sends any number of orders and gets no response ends with the interval down to max(1, 0.8 times itself) |
| `StressReport.StressTrader.Percentiles` | agents/stress-trader.cpp:366-374 | Computes the two percentiles, 0 without samples |
| `StressReport.StressTrader.AdjustInterval` | agents/stress-trader.cpp:401-415 | The stored interval becomes that of the specification |
| `StressReport.StressTrader.ReportStepRow` | agents/stress-trader.cpp:324-420 | With any sends, samples and ring readings arriving meanwhile: every order sent is reported in exactly one row's rate, the row's average is the mean of the drained samples, the next interval follows from it, and exactly what arrived late is left for the next step |
| `StressReport.StressTrader.ObserveRings` | agents/stress-trader.cpp:208-214 | Each ring's peak becomes the higher of its own old peak and its own reading |
| `Csv.PiecesOfJoin` | src/csv_util.cpp:44-49 | Splitting a line undoes joining its fields, except that an empty last field is dropped |
| `Csv.PieceCount` | src/csv_util.cpp:44-51 | The number of fields is the number of commas, plus one unless the line ends with a comma |
| `Csv.PiecesOfUnlines` | src/csv_util.cpp:37-40 | Reading lines undoes writing them with newlines |
| `Csv.NumbersReadBack` | src/csv_util.cpp:8-21 | A printed number reads back if and only if it fits its column's type |
| `Csv.NumbersInRange` | src/csv_util.cpp:8-21 | Every text at all reads as a number of the column's type |
| `Csv.NumberReads` | src/csv_util.cpp:8-21 | White space, a sign, digits and whatever follows them read as the digits' place value under the sign; without digits, or out of the column's range, as 0; a minus is taken modulo 2^64 in unsigned columns, and 32-bit columns keep the low 32 bits |
| `Csv.EveryTextIsNumberText` | src/csv_util.cpp:8-21 | Every text at all is of that form |
| `Csv.FieldsReadBack` | src/csv_util.cpp:55-72 | The fields of a request convert back to it if and only if it fits its columns: Buy or Sell, Limit or Market, numbers in range |
| `Csv.RoundTrip` | src/csv_util.cpp:27-79 | Printing a list in the header's order and loading it returns the same list if and only if every request fits its columns |
| `Csv.LoadedPrintsBack` | src/csv_util.cpp:27-79 | Whatever a file holds, what it loads as can be printed and loaded again unchanged |
| `Csv.JunkYieldsNothing` | src/csv_util.cpp:42-51 | The requests are those of the lines that are not blank, comments or short, one each |
| `Csv.JunkChangesNothing` | src/csv_util.cpp:42-51 | A file loads as if it had no blank lines, comments or short lines after the header |
| `Csv.RoundTripThroughJunk` | data/basic.csv:1-2 | Printed rows with any such lines strewn among them load as the printed list |
| `Csv.JunkIff` | src/csv_util.cpp:42-51 | A row is skipped if and only if it has fewer than ten columns, or ten with an empty last one, or starts like a comment |
| `Csv.RowLoadsAs` | src/csv_util.cpp:53-75 | Any other row adds one request: Cancel and Modify by name and New otherwise, Buy for Buy or buy and Sell otherwise, Market by name and Limit otherwise, each number from its own column, and symbol 1 if the eleventh column is missing, or last and empty |
| `Csv.CSVDataReader.SplitFields` | src/csv_util.cpp:44-49 | The field loop yields the pieces of the line |
| `Csv.CSVDataReader.LoadLine` | src/csv_util.cpp:40-76 | One pass of the line loop appends the line's request, or nothing |
| `Csv.CSVDataReader.LoadFromCSV` | src/csv_util.cpp:27-79 | A file that opens replaces the requests by those it holds; one that does not leaves them and returns false |

## Left out

- Sockets, HTTP posting, connect, handshake, stop and FlatBuffers encoding: a message is a value, a write ends in an event.
- The lifetime of the buffer passed to async_write, and a connection torn down with a write outstanding.
- Setting up the shared memory, clock calibration, delays, signals and process exit.
- Hardware memory reordering and wrap-around of the 64-bit sequence number in the sequence lock.
- Fairness: a reader may loop for as long as the writer keeps writing; its method stops when the given memories run out.
- Rounding of doubles, and 64-bit wrap-around of quantities, prices, positions and cash.
- Allocation of the std::map nodes and the hashing of std::unordered_map; Dafny maps stand for both.
- Terminal display, logging, dashboards and the printed layout; of `display` only the level totals are modelled.
- `update_inventory_metrics` and the traded-volume counter of the advanced market maker.
- `on_timer` of the agents: the random walk of the estimation, the start-up guards and the choice of the stress trader's next action.
- How the ring occupancies are read: `SHMObserver` is not part of this model, its readings are inputs.
- `agents/stra-insider.cpp`, `agents/stra-noise.cpp` and the example programs: their decision code is simpler than the market makers'.
- The FlatBufferBuilder kept for every CSV request, and exceptions other than those of the number conversions.
- The null test of position responses: a null response changes nothing there.
- AccountBook.RestingIsFlows: fills are taken to fit what is left of their order; an over-sized one is covered by the ids only.
- StressReport.ZeroLatencyRun: on reals; doubles follow it up to rounding.
