# Simulated exchange core, modelled in Dafny

This project models the matching core of a small simulated securities exchange (Simple Alternative Trading System). It covers the following pieces.

- **Matching engine.** Each engine keeps, for its share of the symbols:
  - a buy book and a sell book (symbol → sorted price map → FIFO queue of orders);
  - an id index (order id → order object);
  - a last-trade-price table.

  It ingests PITCH messages:
  - Add Order runs price-time matching against the opposite book and rests any remainder.
  - Cancel Order takes shares off an indexed order.
  - Trade messages pass through.
- **Engine router.** It splits the symbol list into contiguous shards, builds one populated engine per shard and a symbol → engine table, and forwards messages and last-price queries.
- **Order.** An order object whose share count is changed in place.
- **The two 12-character base-36 counters.** These are the execution ids of the data service and the order ids of the trader pool.
- **The PITCH message.** A parameter map, its typed accessors and its serialiser. The factory supplies the field lists per message type and the share formatting.

## Modules

| module | file | holds |
|---|---|---|
| `Wrappers` | `wrappers.dfy` | `Option`, `Result` and one `Error` constructor per kind of exception the code throws |
| `Base36` | `base36.dfy` | the in-place increment (`Increment`, a loop over an `array<char>`), its specification by the carry rule (`Carried`, `CarryError`), and the value lemmas |
| `DataServices`, `TraderPools` | `data_service.dfy`, `trader_pool.dfy` | the two counter-owning classes |
| `Decimal` | `decimal.dfy` | `std::stoi` (strtol-style leading parse with a 32-bit range check), decimal printing and `setw`/`setfill` padding |
| `PitchMessages` | `pitch_message.dfy` | the message class (`params` map and `msgFields` list), its accessors as functions on the parameter map, and the serialiser |
| `PitchMsgFactory` | `pitch_msg_factory.dfy` | the factory |
| `Orders` | `order.dfy` | the `Order` class and its value view |
| `EngineSpec` | `engine_spec.dfy` | the engine as a value; every engine operation as a function on that value |
| `EngineLayout` | `engine_layout.dfy` | the layout invariant (below) and the proofs that every operation keeps it |
| `EngineProperties` | `engine_properties.dfy` | conservation, FIFO and price-priority lemmas about the matching loops |
| `EngineBehaviour` | `engine_behaviour.dfy` | the add, cancel and last-price lemmas |
| `MatchingEngines` | `matching_engine.dfy` | the `MatchingEngine` class; its methods are proved against `EngineSpec` |
| `EngineRouters` | `engine_router.dfy` | the sharding functions and the `EngineRouter` class |

### Engine state

A `MatchingEngine` holds these fields as the C++ class does:
- `buyBook` and `sellBook`, of type `map<string, PriceMap>`;
- `idMap`, of type `map<Id, Order>`;
- `lastPriceMap`;
- `dataService`.

A price map is a `seq<Level>` sorted by price. The C++ map is a boost `flat_map`, so its `begin()` and `prev(end())` are the first and last elements. A level's queue holds order ids.

The ghost field `views` tracks the current value of every indexed order, and `State()` assembles the whole engine as an `EngineSpec.Engine` value. Every method states its effect as `State() == <spec function>(old(State()), …)`.

A ghost log `executions` records each `(order id, shares, price)` fill that would be reported. It is appended only when a data service is set.

The layout invariant `EngineLayout.Layout` says three things:
- every price map is sorted;
- every queued id is indexed with that map's side, that map's symbol and that level's price, and appears once;
- every indexed order is queued in its own book.

Prices are integer ticks of 1/10,000 dollar, which is the text of the PITCH `Price` field read as an integer.

## Where the code departs from textbook price-time priority

The model does what the code does in each of these places.

- **Emptied levels are kept.** A textbook book erases a price level once its last order leaves. This code does not:
  - a cancel that takes an order to 0 shares or fewer removes it from its queue and from the index, but leaves the level, even empty (matchingEngine/matchingEngine.cpp:180-184);
  - an add whose incoming order is used up by exactly the last resting order of a level returns at matchingEngine/matchingEngine.cpp:139-142, before the level erase at matchingEngine/matchingEngine.cpp:149, so that level also stays, empty.
- **An empty best level blocks matching.** A textbook sweep goes on while the best opposite price crosses. `matchOrder` looks only at the single best level and requires its queue to be non-empty (matchingEngine/matchingEngine.cpp:94-104). So an empty best level, left by either path above, stops all matching on that side even when deeper levels cross. `EngineSpec.MatchOrder` states exactly this.
- **Unknown symbols.**
  - `addOrder` checks only the buy book (matchingEngine/matchingEngine.cpp:64).
  - `attemptTrade` applies `operator[]` to the opposite book before its existence test (matchingEngine/matchingEngine.cpp:116-118). For a symbol the opposite book lacks, this inserts an empty price map.
  - `locateOrderQueue` inserts a missing symbol or level the same way (matchingEngine/matchingEngine.cpp:166).
- **Cancels cannot be routed.** The cancel field list has no `Symbol` (pitchMsgFactory.h:22). `routeMessage` reads `msg.symbol()` (engineRouter/engineRouter.cpp:71), which throws for such a message. `RouteMessage` therefore fails with `ParameterNotFound("Symbol")` for a cancel built from that list.
- **The negative-share guard is dead code.** After each trade the code tests for a negative incoming share count, and would delete the order and throw `runtime_error` (matchingEngine/matchingEngine.cpp:143-146). Each trade takes the minimum of the two counts, so the count never goes below 0 and the branch cannot be taken (`EngineProperties.ConsumeLeavesNoDebt`).
- **A side tag other than 'B' or 'S'.** `attemptTrade`'s ternaries treat every non-'B' tag as 'S', so such an order trades as a sell. If anything is left over, `addOrder` then throws.

## Model

| member | source | states |
|---|---|---|
| Base36.Increment | dataService/dataService.cpp:14-39 | the array afterwards is the carry-rule successor of the old contents and the error is the one the loop raises |
| Base36.Carried | traderPool/traderPool.cpp:21-46 | the incremented counter has the same length as the old one |
| Base36.Succ | traderPool/traderPool.cpp:29-37 | the digit that follows c ('9'→'A', otherwise the next character) is a base-36 digit worth one more |
| Base36.TrailingZs | traderPool/traderPool.cpp:38-39 | the counted suffix is all 'Z' and the character before it is not |
| Base36.IncrementAddsOne | dataService/dataService.cpp:20-36 | a valid 12-digit counter below the maximum increments without error to a valid 12-digit counter worth exactly one more |
| Base36.SplitAtCarry | dataService/dataService.cpp:20-32 | a counter not all 'Z' splits into prefix, non-'Z' carry digit and 'Z' run, with its value in terms of the three |
| Base36.SuccValue | dataService/dataService.cpp:22-32 | the carried string is worth one more than the original |
| Base36.ValueSnoc | traderPool/traderPool.cpp:27-43 | appending a digit multiplies the value by 36 and adds the digit |
| Base36.ValueZerosAppend | traderPool/traderPool.cpp:38-39 | appending k '0's multiplies the value by 36^k |
| Base36.NotAllZsBelowMax | dataService/dataService.cpp:38 | a counter not ending in a full 'Z' run is below 36^12 - 1 |
| Base36.OverflowAtMax | dataService/dataService.cpp:31-38 | overflow_error is raised exactly for the all-'Z' counter, which is left all '0'; a valid counter never raises invalid_argument |
| Base36.ValueInjective | traderPool/traderPool.cpp:48-52 | equal-length digit strings of equal value are equal, so counters of distinct values are distinct ids |
| Base36.ValueBound | dataService/dataService.cpp:14-39 | an n-digit string is worth less than 36^n |
| Base36.ValueAppend | dataService/dataService.cpp:14-39 | value of a concatenation in terms of the two parts |
| Base36.ValueZs | dataService/dataService.cpp:31-32 | an all-'Z' string is worth 36^n - 1 |
| Base36.FirstIncrement | dataService/dataService.h:24 | the fresh counter "000000000000" is worth 0 and its first increment gives "000000000001" without error |
| Base36.TrailingZsAt | traderPool/traderPool.cpp:27-39 | the run ends at the last non-'Z' character |
| DataServices.DataService.constructor | dataService/dataService.h:24 | the counter starts at twelve '0's, value 0 |
| DataServices.DataService.GetNextExecutionID | dataService/dataService.cpp:41-45 | the counter takes its carry-rule successor; the result is the new id, worth exactly one more, unless the old value was the maximum, when overflow leaves it all '0' |
| TraderPools.TraderPool.constructor | traderPool/traderPool.h:22 | the counter starts at twelve '0's, value 0 |
| TraderPools.TraderPool.GetNextOrderID | traderPool/traderPool.cpp:48-52 | the counter takes its carry-rule successor; the result is the new id, worth exactly one more, unless the old value was the maximum, when overflow leaves it all '0' |
| Decimal.SpaceRun | pitchMessage/pitchMessage.cpp:76-84 | the leading run stoi skips is all whitespace and ends at a non-space |
| Decimal.DigitRun | pitchMessage/pitchMessage.cpp:76-84 | the digit run stoi reads is all digits and ends at a non-digit |
| Decimal.ParseLeading | pitchMessage/pitchMessage.cpp:76-84 | computes strtol's base-10 leading parse: skip whitespace, take an optional sign and the longest digit run, ignore the rest; no digits is invalid_argument |
| Decimal.Stoi | pitchMessage/pitchMessage.cpp:76-84 | the value is the leading parse's, when that fits in a 32-bit int; a parse failure is passed on unchanged; a value outside the range is out_of_range |
| Decimal.DigitsParse | pitchMessage/pitchMessage.cpp:76-79 | a non-empty all-digit string parses to its decimal value |
| Decimal.DecimalString | pitchMessage/pitchMsgFactory.cpp:59-63 | what operator<< prints for a non-negative int is a non-empty digit string |
| Decimal.DecimalStringValue | pitchMessage/pitchMsgFactory.cpp:59-63 | the printed digits read back as the number |
| Decimal.DecimalStringLength | pitchMessage/pitchMsgFactory.cpp:59-63 | n prints in at most k + 1 digits exactly when n < 10^(k+1) |
| Decimal.PadLeft | pitchMessage/pitchMsgFactory.cpp:61 | setw/setfill output is exactly the width long, or the text itself when that is longer: it never truncates |
| Decimal.LeadingZerosValue | pitchMessage/pitchMessage.cpp:76-79 | leading '0's do not change a digit string's value |
| PitchMessages.GetParameter | pitchMessage/pitchMessage.cpp:27-35 | succeeds exactly for a name that was set, with its stored value; otherwise the not-found error naming it |
| PitchMessages.FirstChar | pitchMessage/pitchMessage.cpp:51-69 | type(), side() and display() succeed exactly for a set, non-empty value and give its first character; an unset name is the not-found error, an empty value the out_of_range error |
| PitchMessages.MessageType | pitchMessage/pitchMessage.cpp:66-69 | computes type(): the first character of "MessageType" |
| PitchMessages.Side | pitchMessage/pitchMessage.cpp:61-64 | computes side(): the first character of "Side" |
| PitchMessages.Display | pitchMessage/pitchMessage.cpp:51-54 | computes display(): the first character of "Display" |
| PitchMessages.OrderId | pitchMessage/pitchMessage.cpp:86-89 | computes id(): the "OrderID" parameter |
| PitchMessages.Symbol | pitchMessage/pitchMessage.cpp:91-94 | computes symbol(): the "Symbol" parameter |
| PitchMessages.ExecId | pitchMessage/pitchMessage.cpp:56-59 | computes execId(): the "ExecutionID" parameter |
| PitchMessages.Shares | pitchMessage/pitchMessage.cpp:76-79 | computes shares(): stoi of the "Shares" parameter, the not-found error when it is unset |
| PitchMessages.Timestamp | pitchMessage/pitchMessage.cpp:81-84 | computes timestamp(): stoi of the "Timestamp" parameter |
| PitchMessages.PriceTicks | pitchMessage/pitchMessage.cpp:71-74 | computes the "Price" text read as an integer count of 1/10,000 dollar ticks, the quantity price() scales to dollars |
| PitchMessages.Values | pitchMessage/pitchMessage.cpp:40-46 | computes the values of the listed fields, concatenated in list order |
| PitchMessages.Serialized | pitchMessage/pitchMessage.cpp:37-49 | computes string(): "S" and the listed values, or the missing-field error for the first unset field |
| PitchMessages.FirstMissing | pitchMessage/pitchMessage.cpp:40-44 | the field string() stops at is missing and every field before it is set |
| PitchMessages.PitchMessage.constructor | pitchMessage/pitchMessage.cpp:15-19 | records the field list and sets only "MessageType" to the type string |
| PitchMessages.PitchMessage.SetParameter | pitchMessage/pitchMessage.cpp:21-25 | stores or overwrites one value, keeps the field list, returns the message itself |
| PitchMessages.PitchMessage.String | pitchMessage/pitchMessage.cpp:37-49 | the loop's result is "S" followed by the listed values, or the first missing field |
| PitchMessages.FirstMissingIs | pitchMessage/pitchMessage.cpp:40-44 | a missing field with every earlier one set is the one reported |
| PitchMessages.SetThenGet | pitchMessage/pitchMessage.cpp:21-35 | after a set, get returns the new value, and every other name reads as before |
| PitchMessages.DigitFieldsParse | pitchMessage/pitchMessage.cpp:76-84 | shares(), timestamp() and the price ticks read an all-digit field, leading zeros allowed, as its decimal value |
| PitchMessages.SerializedFailsIffMissing | pitchMessage/pitchMessage.cpp:40-44 | string() fails exactly when some listed field is missing, and names the first such field |
| PitchMessages.SerializedIgnoresUnlisted | pitchMessage/pitchMessage.cpp:37-49 | parameters outside the field list do not affect string() |
| PitchMessages.ValuesAgree | pitchMessage/pitchMessage.cpp:40-46 | equal listed values serialise equally |
| PitchMsgFactory.CreatePitchMsg | pitchMessage/pitchMsgFactory.cpp:16-32 | a fresh message carrying the type's field list and the one-letter type string ('A', 'X', 'E', 'P'), which type() reports |
| PitchMsgFactory.FreshMessage | pitchMessage/pitchMsgFactory.cpp:16-32 | a freshly created message reports its type and cannot be serialised before its timestamp is set |
| PitchMsgFactory.SharesStr | pitchMessage/pitchMsgFactory.cpp:59-63 | a non-negative count gives at least six decimal digits |
| PitchMsgFactory.SharesStrWidth | pitchMessage/pitchMsgFactory.cpp:59-63 | a count below 10^6 gives exactly six digits |
| PitchMsgFactory.SharesRoundTrip | pitchMessage/pitchMsgFactory.cpp:59-63 | shares() of the share string of any non-negative int is that int |
| PitchMsgFactory.NegativeSharesReadAsZero | pitchMessage/pitchMsgFactory.cpp:59-63 | -5 is written "0000-5", which shares() reads as 0 |
| PitchMsgFactory.ValuesConcat | pitchMessage/pitchMessage.cpp:40-46 | the values of two lists, one after the other, are the first list's values followed by the second's |
| PitchMsgFactory.ValuesSnoc | pitchMessage/pitchMessage.cpp:40-46 | one more field appends that field's value |
| PitchMsgFactory.AddMessageString | pitchMsgFactory.h:21 | an add message serialises as "S" and its eight values in add-field order |
| PitchMsgFactory.CancelMessageString | pitchMsgFactory.h:22 | a cancel message serialises as "S" and its four values in cancel-field order |
| Orders.Traded | order/order.cpp:23-26 | the value after tradeShares(d): shares go down by d, symbol, price and side unchanged |
| Orders.TradedTwice | order/order.cpp:23-26 | tradeShares(a) then tradeShares(b) equals tradeShares(a + b); tradeShares(0) changes nothing |
| Orders.Order.constructor | order/order.cpp:14-21 | stores symbol, shares, price, side and id verbatim |
| Orders.Order.TradeShares | order/order.cpp:23-26 | shares become shares - d; every other field is unchanged |
| EngineSpec.MatchOrder | matchingEngine/matchingEngine.cpp:87-107 | against buys only the highest level, against sells only the lowest, and only when it crosses the limit and its queue is non-empty; exactly then is there a match; any other side tag never matches |
| EngineSpec.OppositeSide | matchingEngine/matchingEngine.cpp:113 | computes the side an order trades against: 'S' for 'B', and 'B' for every other tag |
| EngineSpec.BookOf | matchingEngine/matchingEngine.cpp:114 | computes the buy book for 'B', and the sell book for every other tag |
| EngineSpec.WithBook | matchingEngine/matchingEngine.cpp:114-116 | computes the engine with the book BookOf selects replaced |
| EngineSpec.ConsumeQueue | matchingEngine/matchingEngine.cpp:124-147 | computes the inner loop: the head trades min(resting, incoming); a head at 0 leaves queue and index; stop when the incoming order is used up or the queue is empty |
| EngineSpec.Sweep | matchingEngine/matchingEngine.cpp:122-151 | computes the outer loop: consume the matched level; when the order is used up keep that level, even empty; otherwise erase it and match again |
| EngineSpec.Attempt | matchingEngine/matchingEngine.cpp:109-154 | computes attemptTrade: operator[] on the opposite book (inserting an empty map, with no trade, for a missing symbol), the sweep, and the last price set to the last fill's price |
| EngineSpec.PushAt | matchingEngine/matchingEngine.cpp:76-79 | computes priceMap[price].push_back(id): the level inserted empty at its sorted position when missing, then the id at its tail |
| EngineSpec.ParseAdd | matchingEngine/matchingEngine.cpp:58-62 | computes addOrder's reads of id, symbol, side, price and shares, in that order, with the first accessor error |
| EngineSpec.AddParsed | matchingEngine/matchingEngine.cpp:64-85 | computes addOrder once parsed: unknown symbol in the buy book; trade; a used-up order is erased from the index; a 'B'/'S' remainder is emplaced and pushed at its price; any other tag fails |
| EngineSpec.Add | matchingEngine/matchingEngine.cpp:56-85 | computes addOrder: a parse error changes nothing, otherwise AddParsed |
| EngineSpec.Cancel | matchingEngine/matchingEngine.cpp:156-191 | computes cancelOrder: unknown id; locate the level through operator[]; search the queue; parse shares; trade them off; at 0 or fewer remove the order from queue and index but keep the level |
| EngineSpec.Ingest | matchingEngine/matchingEngine.cpp:222-247 | computes ingestMessage: 'A' adds, 'X' cancels, 'P' changes nothing, any other type is the unexpected-type error |
| EngineSpec.LowerBound | matchingEngine/matchingEngine.cpp:76 | the position of the first level priced at or above price, every earlier level being cheaper |
| EngineSpec.WithLevel | matchingEngine/matchingEngine.cpp:166 | after priceMap[price] the lower-bound position holds a level at that price |
| EngineSpec.IndexOf | matchingEngine/matchingEngine.cpp:175-176 | the first position of the id in the queue, or none exactly when the queue lacks it |
| EngineSpec.Populated | matchingEngine/matchingEngine.cpp:48-54 | emplace of an empty price map for each listed symbol: existing entries kept, new ones empty, no others |
| EngineSpec.ConsumeStep | matchingEngine/matchingEngine.cpp:125-147 | one pass of the inner loop, for any non-empty queue: the head trades min(resting, incoming); a head left with shares means the incoming order is used up; a head at 0 leaves queue and index, and the loop stops or goes on with the rest |
| EngineSpec.HeadTradedAdvances | matchingEngine/matchingEngine.cpp:126-137 | one trade of the inner loop keeps the queue indexed and free of repeats, and advances the queue function by one fill |
| EngineSpec.LastPriceSnoc | matchingEngine/matchingEngine.cpp:130 | each fill sets the symbol's last price to the resting price |
| EngineSpec.LastPriceAppend | matchingEngine/matchingEngine.cpp:130 | two batches of fills set the last price as the combined batch does |
| EngineSpec.PopulatedSnoc | matchingEngine/matchingEngine.cpp:50-53 | one more listed symbol adds an empty price map unless the book has one |
| EngineSpec.AttemptSwept | matchingEngine/matchingEngine.cpp:109-154 | attemptTrade is the sweep of the opposite price map, or an inserted empty map with no trade when the symbol is missing |
| EngineSpec.CancelFound | matchingEngine/matchingEngine.cpp:176-186 | once the order is found at position k: a share-parse error, a partial cancel in place, or removal from queue and index |
| EngineProperties.ConsumeConserves | matchingEngine/matchingEngine.cpp:125-147 | remaining plus traded shares is the incoming count |
| EngineProperties.ConsumeLeavesNoDebt | matchingEngine/matchingEngine.cpp:139-146 | after a trade the incoming order never has fewer than 0 shares |
| EngineProperties.ConsumeFifo | matchingEngine/matchingEngine.cpp:124-137 | fills take the queue from its head in order, each at the resting order's price, and what is left is the rest of the queue |
| EngineProperties.ConsumeFillsMin | matchingEngine/matchingEngine.cpp:127-129 | every fill trades min(resting shares, incoming shares left) |
| EngineProperties.ConsumeRemovedFull | matchingEngine/matchingEngine.cpp:133-137 | every resting order that left the queue traded all of its shares |
| EngineProperties.SweepConserves | matchingEngine/matchingEngine.cpp:122-151 | the sweep conserves shares |
| EngineProperties.SweepLeavesNoDebt | matchingEngine/matchingEngine.cpp:139-146 | once a level matched, the incoming order never goes below 0 shares |
| EngineProperties.SweepStep | matchingEngine/matchingEngine.cpp:122-151 | a matched level that does not use up the order is erased and the sweep goes on with the rest |
| EngineProperties.SweepFillsWithin | matchingEngine/matchingEngine.cpp:122-151 | every fill is priced between the lowest and highest level prices |
| EngineProperties.SweepFillsCross | matchingEngine/matchingEngine.cpp:94-104 | an incoming buy never pays above its limit, an incoming sell never receives below it |
| EngineProperties.SweepBuysAtMost | matchingEngine/matchingEngine.cpp:99-103 | buy case of SweepFillsCross |
| EngineProperties.SweepSellsAtLeast | matchingEngine/matchingEngine.cpp:94-98 | sell case of SweepFillsCross |
| EngineProperties.SweepBestFirst | matchingEngine/matchingEngine.cpp:94-104 | price priority: a buy's fill prices never fall, a sell's never rise |
| EngineProperties.SweepBuysRising | matchingEngine/matchingEngine.cpp:99-103 | buy case of SweepBestFirst |
| EngineProperties.SweepSellsFalling | matchingEngine/matchingEngine.cpp:94-98 | sell case of SweepBestFirst |
| EngineProperties.RestBeyondLevel | matchingEngine/matchingEngine.cpp:149-150 | after the matched level the rest of the sweep fills no better for the incoming order than that level |
| EngineProperties.ConsumeAtLevelPrice | matchingEngine/matchingEngine.cpp:130 | fills of one level are all at that level's price |
| EngineProperties.SweepStepPlaced | matchingEngine/matchingEngine.cpp:149 | the map left after erasing a drained level is still placed |
| EngineBehaviour.SweepConsumedEmpty | matchingEngine/matchingEngine.cpp:139-142 | the sweep reports the order used up only when it has no shares left and traded at least once |
| EngineBehaviour.AttemptConserves | matchingEngine/matchingEngine.cpp:109-154 | attemptTrade conserves shares; a used-up order has 0 left |
| EngineBehaviour.AttemptPrices | matchingEngine/matchingEngine.cpp:109-154 | a buy fills at or below its limit, cheapest first; any other side fills at or above, dearest first |
| EngineBehaviour.PushAtTail | matchingEngine/matchingEngine.cpp:76-79 | push_back at price: the id joins the tail of that price's queue, the map stays sorted, every other price is unchanged |
| EngineBehaviour.PushAtExisting | matchingEngine/matchingEngine.cpp:76-79 | the same for a price that already has a level |
| EngineBehaviour.PushAtFresh | matchingEngine/matchingEngine.cpp:76-79 | the same for a price without a level |
| EngineBehaviour.QueueAtSame | matchingEngine/matchingEngine.cpp:76-79 | maps with the same level at a price hold the same queue there |
| EngineBehaviour.AddFailsCleanly | matchingEngine/matchingEngine.cpp:58-67 | a parse failure or unknown symbol reports that error and changes no book or index and trades nothing |
| EngineBehaviour.AddBadSide | matchingEngine/matchingEngine.cpp:75-84 | a side tag other than 'B'/'S' trades as a sell and then fails unless fully consumed |
| EngineBehaviour.AddConsumed | matchingEngine/matchingEngine.cpp:69-72 | a fully traded add rests nowhere and is not indexed; its fills add up to its shares |
| EngineBehaviour.AddRestShape | matchingEngine/matchingEngine.cpp:69-80 | a resting add is attemptTrade's engine with the remainder indexed and pushed onto its own side |
| EngineBehaviour.AddRests | matchingEngine/matchingEngine.cpp:74-80 | the remainder is indexed with its untraded shares at the tail of its price's queue; other prices unchanged |
| EngineBehaviour.EraseAt | matchingEngine/matchingEngine.cpp:183 | erasing the one entry holding the id removes it from the queue |
| EngineBehaviour.EraseFromMap | matchingEngine/matchingEngine.cpp:183 | erasing from its level removes the id from the whole map and keeps every level |
| EngineBehaviour.CancelLocated | matchingEngine/matchingEngine.cpp:156-191 | under the layout the lookup inserts nothing and finds the order; then the three outcomes |
| EngineBehaviour.CancelOutcomes | matchingEngine/matchingEngine.cpp:156-191 | failed cancels change nothing, the queue lookup never misses, no cancel trades, an unknown id is OrderIdNotFound |
| EngineBehaviour.CancelFoundOutcomes | matchingEngine/matchingEngine.cpp:174-186 | for an indexed id under the layout: the queue search never misses, no outcome trades or moves a last price, and a share-parse failure changes nothing |
| EngineBehaviour.CancelPartial | matchingEngine/matchingEngine.cpp:177-180 | a partial cancel only shrinks the order; the books and its queue position stay |
| EngineBehaviour.CancelFull | matchingEngine/matchingEngine.cpp:180-184 | a full cancel removes the order from index and queue, keeps every level, even empty, and moves nothing else |
| EngineBehaviour.CancelTwice | matchingEngine/matchingEngine.cpp:158-161 | cancelling a fully cancelled id again is OrderIdNotFound and changes nothing |
| EngineBehaviour.IngestLastPrice | matchingEngine/matchingEngine.cpp:222-247 | only an Add that traded moves a last price, its symbol's, to its last fill's price |
| EngineBehaviour.AddLastPrice | matchingEngine/matchingEngine.cpp:130 | an add moves its symbol's last price to its last fill's price, and only when it traded |
| EngineBehaviour.AddParsedLastPrice | matchingEngine/matchingEngine.cpp:130 | the same in terms of the parsed request |
| EngineBehaviour.CancelLeavesLastPrice | matchingEngine/matchingEngine.cpp:171-191 | no cancel trades or moves a last price |
| EngineLayout.ConsumeQueueShape | matchingEngine/matchingEngine.cpp:133-137 | the inner loop leaves a suffix of the queue and drops from the index exactly the traded-out prefix; the others keep their place |
| EngineLayout.ConsumeIndexAt | matchingEngine/matchingEngine.cpp:133-134 | an id leaves the index exactly when it is in the traded-out prefix |
| EngineLayout.ConsumeSuffix | matchingEngine/matchingEngine.cpp:125-147 | what is left of the queue is a suffix, empty unless the incoming order was used up |
| EngineLayout.ConsumeKeepsLocs | matchingEngine/matchingEngine.cpp:128 | an order still indexed keeps its symbol, price and side |
| EngineLayout.ConsumeKeepsOthers | matchingEngine/matchingEngine.cpp:124-137 | orders outside the queue are untouched |
| EngineLayout.SweepShape | matchingEngine/matchingEngine.cpp:122-151 | the sweep leaves a placed price map over a shrunk index |
| EngineLayout.EraseShape | matchingEngine/matchingEngine.cpp:149 | erasing a drained level keeps the map placed and shrinks it |
| EngineLayout.AttemptKeepsLayout | matchingEngine/matchingEngine.cpp:109-154 | attemptTrade keeps the layout and indexes no new id |
| EngineLayout.PushAtPlaced | matchingEngine/matchingEngine.cpp:76-79 | queueing a new id at its level keeps the map placed |
| EngineLayout.PushAtInMap | matchingEngine/matchingEngine.cpp:76-79 | after the push the id is queued, earlier ids stay queued, no other id appears |
| EngineLayout.PushKeepsLayout | matchingEngine/matchingEngine.cpp:74-80 | indexing and queueing a new order keeps the layout |
| EngineLayout.AddKeepsLayout | matchingEngine/matchingEngine.cpp:56-85 | addOrder with a fresh id keeps the layout |
| EngineLayout.CancelFinds | matchingEngine/matchingEngine.cpp:163-166 | under the layout the order's level exists and holds it, so operator[] inserts nothing |
| EngineLayout.CancelKeepsLayout | matchingEngine/matchingEngine.cpp:171-191 | cancelOrder keeps the layout |
| EngineLayout.RemoveAtShape | matchingEngine/matchingEngine.cpp:181-183 | removing one entry from queue and index keeps the map placed and shrinks it |
| EngineLayout.TradedKeepsLayout | matchingEngine/matchingEngine.cpp:178 | taking shares off an indexed order keeps the layout |
| EngineLayout.PopulateKeepsLayout | matchingEngine/matchingEngine.cpp:48-54 | populateSymbols keeps the layout |
| EngineLayout.IngestKeepsLayout | matchingEngine/matchingEngine.cpp:222-247 | ingestMessage keeps the layout |
| EngineLayout.LevelsDisjoint | matchingEngine/matchingEngine.cpp:74-80 | two levels of a placed map share no id |
| EngineLayout.LowerBoundAt | matchingEngine/matchingEngine.cpp:166 | in a sorted map the lower bound of a level's own price is that level |
| MatchingEngines.MatchingEngine.constructor | matchingEngine/matchingEngine.cpp:17-20 | empty books, index and last prices; the given data service |
| MatchingEngines.MatchingEngine.LocateBook | matchingEngine/matchingEngine.cpp:37-46 | the side's price map for the symbol, if any; any other side is the unexpected-side error |
| MatchingEngines.MatchingEngine.PopulateSymbols | matchingEngine/matchingEngine.cpp:48-54 | both books become Populated, with nothing else changed and the engine kept valid |
| MatchingEngines.MatchingEngine.PopulateOne | matchingEngine/matchingEngine.cpp:51-52 | one symbol is emplaced in both books |
| MatchingEngines.MatchingEngine.TradeQueued | matchingEngine/matchingEngine.cpp:127-135 | both orders trade the delta; the resting one leaves the index at 0 |
| MatchingEngines.MatchingEngine.TradeHead | matchingEngine/matchingEngine.cpp:126-137 | one pass of the inner loop, equal to HeadTraded, with last price and execution log updated |
| MatchingEngines.MatchingEngine.ConsumeLevel | matchingEngine/matchingEngine.cpp:125-147 | the inner loop equals ConsumeQueue on the old index and shares |
| MatchingEngines.MatchingEngine.SweepLevels | matchingEngine/matchingEngine.cpp:122-151 | the outer loop equals Sweep; last price after the fills; one logged execution per fill |
| MatchingEngines.MatchingEngine.SweepOpposite | matchingEngine/matchingEngine.cpp:115-122 | the sweep of the opposite map, or nothing when the symbol is missing |
| MatchingEngines.MatchingEngine.StoreSwept | matchingEngine/matchingEngine.cpp:116-140 | the swept map goes back into the opposite book; erasing the incoming id changes nothing |
| MatchingEngines.MatchingEngine.AttemptTrade | matchingEngine/matchingEngine.cpp:109-154 | the new state is Attempt of the old; the result is None exactly when the order was used up |
| MatchingEngines.MatchingEngine.StorePriceMap | matchingEngine/matchingEngine.cpp:76-79 | book[symbol] = pm on the side the tag selects |
| MatchingEngines.MatchingEngine.EraseId | matchingEngine/matchingEngine.cpp:134 | the id leaves the index and nothing else changes |
| MatchingEngines.MatchingEngine.Emplace | matchingEngine/matchingEngine.cpp:74 | emplace indexes a new id and leaves an existing one alone |
| MatchingEngines.MatchingEngine.PlaceOrder | matchingEngine/matchingEngine.cpp:64-85 | the new state is AddParsed of the old; the result matches its outcome; a resting order is fresh and indexed |
| MatchingEngines.MatchingEngine.AddOrder | matchingEngine/matchingEngine.cpp:56-85 | the new state is Add of the old; the result matches its outcome; the engine stays valid |
| MatchingEngines.MatchingEngine.TradeIndexed | matchingEngine/matchingEngine.cpp:178 | the indexed order loses the delta and its view follows |
| MatchingEngines.MatchingEngine.LocateOrderQueue | matchingEngine/matchingEngine.cpp:156-169 | an unknown id is OrderIdNotFound; otherwise the order's level, inserted if missing, and its position |
| MatchingEngines.MatchingEngine.CancelOrder | matchingEngine/matchingEngine.cpp:171-191 | the new state and the error are Cancel of the old; nothing trades |
| MatchingEngines.MatchingEngine.FindInQueue | matchingEngine/matchingEngine.cpp:175-176 | the search yields the first position of the id, or none |
| MatchingEngines.MatchingEngine.CancelShares | matchingEngine/matchingEngine.cpp:177-184 | shares come off; at 0 or fewer the order leaves queue and index |
| MatchingEngines.MatchingEngine.IngestMessage | matchingEngine/matchingEngine.cpp:222-247 | the new state, error and fills are Ingest of the old; 'P' changes nothing; the engine stays valid |
| MatchingEngines.MatchingEngine.GetBook | matchingEngine/matchingEngine.cpp:249-258 | the buy or sell book; any other side is an error |
| MatchingEngines.MatchingEngine.SetDataService | matchingEngine/matchingEngine.cpp:260-263 | sets the data service and changes nothing else |
| MatchingEngines.MatchingEngine.GetLastPrice | matchingEngine/matchingEngine.cpp:270-278 | some price exactly when the symbol traded, and then its last price |
| EngineRouters.SplitSymbolList | engineRouter/engineRouter.cpp:14-31 | exactly engineCount shards, shard i being the i-th contiguous slice |
| EngineRouters.ShardStartClosed | engineRouter/engineRouter.cpp:18-26 | shard i starts after i full shards plus one extra symbol for each of the first total % count |
| EngineRouters.ShardStarts | engineRouter/engineRouter.cpp:22-28 | every shard lies inside the list and the last ends at its end |
| EngineRouters.ShardSizes | engineRouter/engineRouter.cpp:24 | shard i has total / count symbols plus one for i < total % count; sizes differ by at most one and never grow |
| EngineRouters.ShardsFlatten | engineRouter/engineRouter.cpp:22-28 | the shards in order concatenate to the symbol list, so every symbol lands in exactly one place |
| EngineRouters.EmplacedFacts | engineRouter/engineRouter.cpp:41-43 | emplace adds missing symbols with this engine and keeps existing ones |
| EngineRouters.RouteTableFirst | engineRouter/engineRouter.cpp:37-44 | a symbol is routed exactly when some shard holds it, and then to the first shard that holds it |
| EngineRouters.NewPopulated | engineRouter/engineRouter.cpp:38-40 | a fresh engine with the data service, populated with the shard |
| EngineRouters.EmplaceAll | engineRouter/engineRouter.cpp:41-43 | the inner loop builds Emplaced |
| EngineRouters.BuildEngines | engineRouter/engineRouter.cpp:37-40 | one fresh, distinct, populated engine per shard |
| EngineRouters.BuildTable | engineRouter/engineRouter.cpp:37-44 | the table built is RouteTable of the shards and routes only to existing engines |
| EngineRouters.EngineRouter.constructor | engineRouter/engineRouter.cpp:33-45 | engineCount shards of the list, one populated engine without data service each, the routing table |
| EngineRouters.EngineRouter.WithDataService | engineRouter/engineRouter.cpp:47-59 | the same, every engine reporting to the data service |
| EngineRouters.EngineRouter.ConnectDataService | engineRouter/engineRouter.cpp:61-66 | every engine gets the data service; nothing else about them changes |
| EngineRouters.EngineRouter.RouteMessage | engineRouter/engineRouter.cpp:68-72 | a message without a Symbol fails; otherwise the owner's new state and error are Ingest of its old state |
| EngineRouters.EngineRouter.RouteGetLastPrice | engineRouter/engineRouter.cpp:74-77 | the owner's last price for a routed symbol; otherwise the out_of_range that `engineMap.at` throws (`UnroutedSymbol`) |

## Left out

- The output queue and message hand-off (`sendExecuteMessage`, `getExecutionID`, `DataService::getQueue`): a lock-free concurrent queue that is handed a pointer to a stack-local message. It is replaced by the ghost `executions` log, appended once per fill when a data service is set. Execution-id allocation inside the engine is not modelled.
- Wall-clock timestamps (`getTimestampStr`), `getPriceStr` and `PitchMessage::price()`: clock reads and double scaling and rounding. Prices are integer ticks, read by `PitchMessages.PriceTicks` with the integer parser.
- Trader bots and `traderBot.cpp`: they draw random numbers. The empty `TraderPool` constructor has no behaviour. `sim/sim.cpp` is console I/O only.
- `forwardTrade`: an empty body. An ingested 'P' message changes nothing.
- `getIDMap`: it returns a mutable reference to the index; callers can see the index as the `idMap` field.
- `new`/`delete` and the engine destructor: Dafny manages memory. Queues hold order ids that name entries of `idMap`, not order pointers.
- Router pointers. The engines are a sequence and `engineMap` holds indices. So the dangling `&matchingEngines.back()` pointers left by vector reallocation are not modelled; the model behaves as if they stayed valid.
- The superseded root-level revisions (`matchingEngine.cpp`, `orderQueue.*`, `order.*`, `pitchMessage.*`, `pitchMsgFactory.cpp`) and the stale headers. The model follows the sub-directory .cpp files and takes only the field lists from `pitchMsgFactory.h`.
- Concurrency. Engines are single-threaded, and nothing here models threads.
- EngineRouters.EngineRouter.RouteMessage: requires a routed symbol when the message has one. `engineMap[symbol]` inserts and dereferences a null pointer for any other symbol, which is undefined behaviour.
- EngineRouters.EngineRouter.RouteMessage: may modify only the owning engine and its orders, which relies on the engines being distinct. `BuildEngines` proves this distinctness for the constructors.
- EngineRouters.EngineRouter.constructor: requires engineCount > 0. The C++ divides by it.
- MatchingEngines.MatchingEngine.AddOrder: requires an id the index does not hold (`FreshId`). If ids collide, `emplace` keeps the old entry while the new order is queued, and `idMap.erase` of a consumed incoming id would erase the resting order.
- MatchingEngines.MatchingEngine.AddOrder: on a side tag other than 'B'/'S', the C++ first emplaces the leftover and then deletes it and throws, which leaves a dangling index entry. The model does not index it.
- MatchingEngines.MatchingEngine.AttemptTrade: states the engine state, `Indexed` and `Coupled`. The layout is carried by `PlaceOrder`'s precondition and proved by `EngineLayout.AttemptKeepsLayout`.
- MatchingEngines.MatchingEngine.CancelOrder: like AttemptTrade, states the engine state, `Indexed` and `Coupled`. The layout is proved by `EngineLayout.CancelKeepsLayout`.
- Fixed-width integers: shares are unbounded integers after `stoi`'s range check. The 32-bit wrap-around of `orderShares -= shareDelta` is not modelled, nor the `int` arithmetic of `splitSymbolList`.
- EngineSpec.ViewOf gives a default order for an id with no entry. Under the layout invariant every queued id has an entry, so the default is never read.
