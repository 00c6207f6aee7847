/**
 * The matching engine as a mutable object: two books, the id index of live
 * orders and the last traded price per symbol, all updated in place. Every
 * entry point is proved to leave the state its EngineSpec function computes,
 * and to keep the layout invariant of EngineLayout.
 *
 * A queue holds the ids of its orders; the Order objects themselves are
 * reached through idMap, and the ghost field views mirrors their current
 * values.
 */
module MatchingEngines {
  import opened Wrappers
  import opened Orders
  import opened PitchMessages
  import opened EngineSpec
  import opened EngineLayout
  import opened DataServices

  class MatchingEngine {
    var buyBook: Book
    var sellBook: Book
    var idMap: map<Id, Order>
    var lastPriceMap: map<string, int>
    var dataService: DataService?
    /** The current value of every indexed order. */
    ghost var views: OrderViews
    /** The Execute messages handed to the data service, one per fill, in order. */
    ghost var executions: seq<Fill>

    ghost function State(): Engine
      reads this
    {
      Engine(buyBook, sellBook, views, lastPriceMap)
    }

    /** Every order is indexed under its own id, so distinct keys hold distinct objects. */
    ghost predicate Indexed()
      reads this
    {
      forall k :: k in idMap ==> idMap[k].id == k
    }

    /** views holds exactly the current value of each indexed order. */
    ghost predicate Coupled()
      reads this, idMap.Values
    {
      idMap.Keys == views.Keys && forall k :: k in idMap ==> idMap[k].View() == views[k]
    }

    ghost predicate Valid()
      reads this, idMap.Values
    {
      Indexed() && Coupled() && Layout(State())
    }

    /** An engine with empty books, reporting to newDataService when it is non-null. */
    constructor (newDataService: DataService?)
      ensures Valid()
      ensures State() == Engine(map[], map[], map[], map[])
      ensures dataService == newDataService && executions == []
    {
      buyBook := map[];
      sellBook := map[];
      idMap := map[];
      lastPriceMap := map[];
      dataService := newDataService;
      views := map[];
      executions := [];
    }

    /** locateBook: the price map of symbol on the given side, if the book has one; any other side is an error. */
    method LocateBook(symbol: string, side: char) returns (r: Result<Option<PriceMap>>)
      ensures side == 'B' ==> r == Success(if symbol in buyBook then Some(buyBook[symbol]) else None)
      ensures side == 'S' ==> r == Success(if symbol in sellBook then Some(sellBook[symbol]) else None)
      ensures side != 'B' && side != 'S' ==> r == Failure(UnexpectedSide)
    {
      if side == 'B' {
        r := Success(if symbol in buyBook then Some(buyBook[symbol]) else None);
      } else if side == 'S' {
        r := Success(if symbol in sellBook then Some(sellBook[symbol]) else None);
      } else {
        r := Failure(UnexpectedSide);
      }
    }

    /** populateSymbols: each listed symbol gets an empty price map in both books unless it has one. */
    method PopulateSymbols(symbolList: seq<string>)
      requires Valid()
      modifies this
      ensures Valid()
      ensures buyBook == Populated(old(buyBook), symbolList) && sellBook == Populated(old(sellBook), symbolList)
      ensures idMap == old(idMap) && views == old(views) && lastPriceMap == old(lastPriceMap)
      ensures dataService == old(dataService) && executions == old(executions)
    {
      ghost var e0 := State();
      for i := 0 to |symbolList|
        invariant buyBook == Populated(e0.buy, symbolList[..i]) && sellBook == Populated(e0.sell, symbolList[..i])
        invariant idMap == old(idMap) && views == old(views) && lastPriceMap == old(lastPriceMap)
        invariant dataService == old(dataService) && executions == old(executions)
      {
        var symbol := symbolList[i];
        assert symbolList[..i + 1] == symbolList[..i] + [symbol];
        PopulatedSnoc(e0.buy, symbolList[..i], symbol);
        PopulatedSnoc(e0.sell, symbolList[..i], symbol);
        PopulateOne(symbol);
      }
      assert symbolList[..|symbolList|] == symbolList;
      PopulateKeepsLayout(e0, symbolList);
    }

    /** One step of populateSymbols: symbol gets an empty price map in each book that lacks it. */
    method PopulateOne(symbol: string)
      modifies this
      ensures buyBook == (if symbol in old(buyBook) then old(buyBook) else old(buyBook)[symbol := []])
      ensures sellBook == (if symbol in old(sellBook) then old(sellBook) else old(sellBook)[symbol := []])
      ensures idMap == old(idMap) && views == old(views) && lastPriceMap == old(lastPriceMap)
      ensures dataService == old(dataService) && executions == old(executions)
    {
      if symbol !in buyBook {
        buyBook := buyBook[symbol := []];
      }
      if symbol !in sellBook {
        sellBook := sellBook[symbol := []];
      }
    }

    /**
     * The queued order x and the incoming order both trade shareDelta
     * shares; x leaves the index when it is left with none.
     */
    method TradeQueued(x: Id, incoming: Order, shareDelta: int) returns (removed: bool)
      requires Indexed() && Coupled() && x in idMap && incoming.id !in idMap
      modifies this, idMap[x], incoming
      ensures Indexed() && Coupled() && incoming.id !in idMap
      ensures var v := old(views)[x];
        removed == (v.shares - shareDelta == 0)
        && views == (if removed then old(views) - {x} else old(views)[x := Traded(v, shareDelta)])
        && idMap == (if removed then old(idMap) - {x} else old(idMap))
      ensures incoming.shares == old(incoming.shares) - shareDelta
      ensures buyBook == old(buyBook) && sellBook == old(sellBook) && lastPriceMap == old(lastPriceMap)
      ensures dataService == old(dataService) && executions == old(executions)
    {
      var queuedOrder := idMap[x];
      assert queuedOrder.id == x && incoming != queuedOrder;
      queuedOrder.TradeShares(shareDelta);
      incoming.TradeShares(shareDelta);
      forall k | k in idMap && k != x ensures idMap[k].View() == views[k] {
        assert idMap[k].id == k && old(idMap[k].View()) == old(views)[k];
      }
      removed := queuedOrder.shares == 0;
      if removed {
        idMap, views := idMap - {queuedOrder.id}, views - {x};
      } else {
        views := views[x := queuedOrder.View()];
      }
    }

    /**
     * One pass of attemptTrade's inner loop: the head of the queue trades
     * min(resting, incoming) shares with the incoming order, the symbol's
     * last price becomes the resting price, one execution is reported, and
     * a resting order left with 0 shares leaves the index and the queue.
     */
    method TradeHead(q: seq<Id>, incoming: Order, symbol: string) returns (q': seq<Id>, ghost fill: Fill)
      requires Indexed() && Coupled() && incoming.id !in idMap && q != [] && q[0] in views
      modifies this, idMap.Values, incoming
      ensures Indexed() && Coupled() && incoming.id !in idMap
      ensures forall k :: k in idMap ==> k in old(idMap) && idMap[k] == old(idMap[k])
      ensures HeadTraded(q, old(views), old(incoming.shares), q', views, incoming.shares, fill)
      ensures lastPriceMap == old(lastPriceMap)[symbol := fill.price]
      ensures executions == old(executions) + (if dataService != null then [fill] else [])
      ensures buyBook == old(buyBook) && sellBook == old(sellBook) && dataService == old(dataService)
    {
      var queuedOrder := idMap[q[0]];
      assert queuedOrder.View() == views[q[0]];
      var shareDelta := Min(queuedOrder.shares, incoming.shares);
      fill := Fill(q[0], shareDelta, queuedOrder.price);
      var removed := TradeQueued(q[0], incoming, shareDelta);
      lastPriceMap, executions := lastPriceMap[symbol := queuedOrder.price],
                                  executions + (if dataService != null then [fill] else []);
      q' := if removed then q[1..] else q;
    }

    /**
     * attemptTrade's inner loop over one level's queue: trade the head while
     * the queue has orders, stopping as soon as the incoming order has no
     * shares left.
     */
    method ConsumeLevel(q0: seq<Id>, incoming: Order, symbol: string) returns (q: seq<Id>, ghost fills: seq<Fill>)
      requires Indexed() && Coupled() && incoming.id !in idMap
      requires NoDup(q0) && forall k :: 0 <= k < |q0| ==> q0[k] in idMap
      modifies this, idMap.Values, incoming
      ensures Indexed() && Coupled() && incoming.id !in idMap
      ensures forall k :: k in idMap ==> k in old(idMap) && idMap[k] == old(idMap[k])
      ensures var c := ConsumeQueue(q0, old(views), old(incoming.shares));
        q == c.queue && views == c.orders && incoming.shares == c.remaining && fills == c.fills
      ensures buyBook == old(buyBook) && sellBook == old(sellBook) && dataService == old(dataService)
      ensures lastPriceMap == LastPriceAfter(old(lastPriceMap), symbol, fills)
      ensures executions == old(executions) + (if dataService != null then fills else [])
    {
      ghost var c0 := ConsumeQueue(q0, views, incoming.shares);
      q := q0;
      fills := [];
      var stop := false;
      while q != [] && !stop
        invariant Indexed() && Coupled() && incoming.id !in idMap
        invariant NoDup(q) && forall k :: 0 <= k < |q| ==> q[k] in views
        invariant forall k :: k in idMap ==> k in old(idMap) && idMap[k] == old(idMap[k])
        invariant buyBook == old(buyBook) && sellBook == old(sellBook) && dataService == old(dataService)
        invariant lastPriceMap == LastPriceAfter(old(lastPriceMap), symbol, fills)
        invariant executions == old(executions) + (if dataService != null then fills else [])
        invariant stop ==> c0 == Consumed(q, views, incoming.shares, fills)
        invariant !stop ==> c0 == AfterFills(fills, ConsumeQueue(q, views, incoming.shares))
        decreases |q|, if stop then 0 else 1
      {
        ghost var q1, views1, n1 := q, views, incoming.shares;
        ghost var fill;
        q, fill := TradeHead(q, incoming, symbol);
        HeadTradedAdvances(q1, views1, n1, q, views, incoming.shares, fill, fills);
        LastPriceSnoc(old(lastPriceMap), symbol, fills, fill);
        AppendAssoc(old(executions), fills, [fill]);
        fills := fills + [fill];
        if incoming.shares == 0 {
          stop := true;
        }
      }
    }
  
    /**
     * attemptTrade's outer loop over the opposite price map pm0: consume the
     * matched level; stop as soon as the incoming order is used up, keeping
     * that level; otherwise erase the drained level and match again.
     */
    method SweepLevels(pm0: PriceMap, oppositeSide: char, limit: int, incoming: Order, symbol: string)
      returns (pm: PriceMap, consumed: bool, ghost fills: seq<Fill>)
      requires Indexed() && Coupled() && incoming.id !in idMap
      requires MapPlaced(pm0, views, oppositeSide, symbol)
      modifies this, idMap.Values, incoming
      ensures Indexed() && Coupled() && incoming.id !in idMap
      ensures forall k :: k in idMap ==> k in old(idMap) && idMap[k] == old(idMap[k])
      ensures var s := Sweep(pm0, old(views), oppositeSide, limit, old(incoming.shares));
        pm == s.levels && views == s.orders && incoming.shares == s.remaining && fills == s.fills
        && consumed == s.consumed
      ensures buyBook == old(buyBook) && sellBook == old(sellBook) && dataService == old(dataService)
      ensures lastPriceMap == LastPriceAfter(old(lastPriceMap), symbol, fills)
      ensures executions == old(executions) + (if dataService != null then fills else [])
    {
      ghost var s0 := Sweep(pm0, views, oppositeSide, limit, incoming.shares);
      pm := pm0;
      fills := [];
      var matched := MatchOrder(pm, oppositeSide, limit);
      while matched.Some?
        invariant Indexed() && Coupled() && incoming.id !in idMap
        invariant MapPlaced(pm, views, oppositeSide, symbol)
        invariant matched == MatchOrder(pm, oppositeSide, limit)
        invariant forall k :: k in idMap ==> k in old(idMap) && idMap[k] == old(idMap[k])
        invariant buyBook == old(buyBook) && sellBook == old(sellBook) && dataService == old(dataService)
        invariant lastPriceMap == LastPriceAfter(old(lastPriceMap), symbol, fills)
        invariant executions == old(executions) + (if dataService != null then fills else [])
        invariant s0 == SweptAfter(fills, Sweep(pm, views, oppositeSide, limit, incoming.shares))
        decreases |pm|
      {
        var i := matched.value;
        ghost var pm1, views1, n1 := pm, views, incoming.shares;
        ConsumeTrims(pm, views, oppositeSide, symbol, i, incoming.shares);
        var q;
        ghost var f;
        q, f := ConsumeLevel(pm[i].queue, incoming, symbol);
        LastPriceAppend(old(lastPriceMap), symbol, fills, f);
        AppendAssoc(old(executions), fills, f);
        if incoming.shares == 0 {
          pm, consumed, fills := pm[i := Level(pm[i].price, q)], true, fills + f;
          return;
        }
        EraseShape(pm1, views1, views, oppositeSide, symbol, i);
        SweptAfterTwice(fills, f, Sweep(EraseLevel(pm1, i), views, oppositeSide, limit, incoming.shares));
        pm, fills := pm[..i] + pm[i + 1..], fills + f;
        matched := MatchOrder(pm, oppositeSide, limit);
      }
      consumed := false;
    }
  
    /** book[symbol] = pm on the book the side tag selects ('B' the buy book, any other tag the sell book). */
    method StorePriceMap(side: char, symbol: string, pm: PriceMap)
      requires Indexed() && Coupled()
      modifies this
      ensures Indexed() && Coupled()
      ensures State() == WithBook(old(State()), side, BookOf(old(State()), side)[symbol := pm])
      ensures idMap == old(idMap) && dataService == old(dataService) && executions == old(executions)
    {
      if side == 'B' {
        buyBook := buyBook[symbol := pm];
      } else {
        sellBook := sellBook[symbol := pm];
      }
    }

    /** idMap.erase(id): the id leaves the index, and nothing else changes. */
    method EraseId(id: Id)
      requires Indexed() && Coupled()
      modifies this
      ensures Indexed() && Coupled()
      ensures idMap == old(idMap) - {id} && views == old(views) - {id}
      ensures buyBook == old(buyBook) && sellBook == old(sellBook) && lastPriceMap == old(lastPriceMap)
      ensures dataService == old(dataService) && executions == old(executions)
    {
      idMap, views := idMap - {id}, views - {id};
    }

    /**
     * attemptTrade: operator[] on the opposite book inserts an empty price
     * map for a symbol it lacks, and then nothing trades; otherwise the
     * opposite price map is swept. The result is the incoming order when it
     * still has shares to rest, and None when it was used up (its id is then
     * erased from the index, where it never was).
     */
    method AttemptTrade(incoming: Order, symbol: string) returns (r: Option<Order>, ghost fills: seq<Fill>)
      requires Indexed() && Coupled() && incoming.id !in idMap
      requires var opp := OppositeSide(incoming.side);
        symbol in BookOf(State(), opp) ==> MapPlaced(BookOf(State(), opp)[symbol], views, opp, symbol)
      modifies this, idMap.Values, incoming
      ensures Indexed() && Coupled() && incoming.id !in idMap
      ensures forall k :: k in idMap ==> k in old(idMap) && idMap[k] == old(idMap[k])
      ensures var t := Attempt(old(State()), symbol, incoming.side, incoming.price, old(incoming.shares));
        State() == t.engine && incoming.shares == t.remaining && fills == t.fills
        && r == (if t.consumed then None else Some(incoming))
      ensures dataService == old(dataService)
      ensures executions == old(executions) + (if dataService != null then fills else [])
    {
      ghost var e0 := State();
      var side, price := incoming.side, incoming.price;
      var oppositeSide := if side == 'B' then 'S' else 'B';
      var pm, consumed;
      pm, consumed, fills := SweepOpposite(oppositeSide, price, incoming, symbol);
      AttemptSwept(e0, symbol, side, price, old(incoming.shares), Swept(pm, views, incoming.shares, fills, consumed));
      StoreSwept(oppositeSide, symbol, pm, consumed, incoming.id);
      r := if consumed then None else Some(incoming);
    }

    /**
     * The matching part of attemptTrade: the opposite price map of symbol is
     * swept when the book has one; otherwise the result is an empty price
     * map and nothing trades.
     */
    method SweepOpposite(oppositeSide: char, limit: int, incoming: Order, symbol: string)
      returns (pm: PriceMap, consumed: bool, ghost fills: seq<Fill>)
      requires Indexed() && Coupled() && incoming.id !in idMap
      requires oppositeSide == 'B' || oppositeSide == 'S'
      requires symbol in BookOf(State(), oppositeSide) ==>
        MapPlaced(BookOf(State(), oppositeSide)[symbol], views, oppositeSide, symbol)
      modifies this, idMap.Values, incoming
      ensures Indexed() && Coupled() && incoming.id !in idMap
      ensures forall k :: k in idMap ==> k in old(idMap) && idMap[k] == old(idMap[k])
      ensures var book := BookOf(old(State()), oppositeSide);
        Swept(pm, views, incoming.shares, fills, consumed)
        == if symbol in book then Sweep(book[symbol], old(views), oppositeSide, limit, old(incoming.shares))
           else Swept([], old(views), old(incoming.shares), [], false)
      ensures buyBook == old(buyBook) && sellBook == old(sellBook) && dataService == old(dataService)
      ensures lastPriceMap == LastPriceAfter(old(lastPriceMap), symbol, fills)
      ensures executions == old(executions) + (if dataService != null then fills else [])
    {
      var located := LocateBook(symbol, oppositeSide);
      var found := located.value;
      pm, consumed, fills := [], false, [];
      if found.Some? {
        pm, consumed, fills := SweepLevels(found.value, oppositeSide, limit, incoming, symbol);
      }
    }

    /**
     * The end of attemptTrade: the swept price map goes back into the
     * opposite book and, when the incoming order was used up, its id is
     * erased from the index, which never held it.
     */
    method StoreSwept(oppositeSide: char, symbol: string, pm: PriceMap, consumed: bool, id: Id)
      requires Indexed() && Coupled() && id !in idMap
      modifies this
      ensures Indexed() && Coupled() && id !in idMap
      ensures State() == WithBook(old(State()), oppositeSide, BookOf(old(State()), oppositeSide)[symbol := pm])
      ensures idMap == old(idMap) && dataService == old(dataService) && executions == old(executions)
    {
      StorePriceMap(oppositeSide, symbol, pm);
      if consumed {
        RemoveAbsent(idMap, id);
        RemoveAbsent(views, id);
        EraseId(id);
      }
    }
  
    /** idMap.emplace(id, order): indexes order under id unless id is already indexed. */
    method Emplace(id: Id, order: Order)
      requires Indexed() && Coupled() && order.id == id
      modifies this
      ensures Indexed() && Coupled()
      ensures idMap == (if id in old(idMap) then old(idMap) else old(idMap)[id := order])
      ensures views == (if id in old(views) then old(views) else old(views)[id := order.View()])
      ensures buyBook == old(buyBook) && sellBook == old(sellBook) && lastPriceMap == old(lastPriceMap)
      ensures dataService == old(dataService) && executions == old(executions)
    {
      if id !in idMap {
        idMap, views := idMap[id := order], views[id := order.View()];
      }
    }

    /**
     * addOrder after parsing: reject a symbol the buy book does not know,
     * trade against the opposite side, and let whatever is left rest at the
     * tail of its own side's level.
     */
    method PlaceOrder(req: AddRequest) returns (r: Result<Option<Order>>, ghost fills: seq<Fill>)
      requires Indexed() && Coupled() && req.id !in idMap
      requires Layout(State())
      modifies this, idMap.Values
      ensures Indexed() && Coupled()
      ensures var a := AddParsed(old(State()), req);
        State() == a.engine && fills == a.fills
        && r.Failure? == a.result.Failure? && (r.Failure? ==> r.error == a.result.error)
        && (r.Success? ==> r.value.Some? == a.result.value)
      ensures r.Success? && r.value.Some? ==> var o := r.value.value;
        fresh(o) && o.id in idMap && idMap[o.id] == o
      ensures dataService == old(dataService)
      ensures executions == old(executions) + (if dataService != null then fills else [])
    {
      var id, symbol, side, price, shares := req.id, req.symbol, req.side, req.price, req.shares;
      var newOrder := new Order(symbol, shares, price, side, id);
      fills := [];
      if symbol !in buyBook {
        return Failure(UnknownSymbol), [];
      }
      var opp := OppositeSide(side);
      assert symbol in BookOf(State(), opp) ==> MapPlaced(BookOf(State(), opp)[symbol], views, opp, symbol);
      var revised;
      revised, fills := AttemptTrade(newOrder, symbol);
      if revised.None? {
        RemoveAbsent(views, id);
        return Success(None), fills;
      }
      if side == 'B' || side == 'S' {
        Emplace(id, newOrder);
        var own := if side == 'B' then buyBook else sellBook;
        StorePriceMap(side, symbol, PushAt(GetOrEmpty(own, symbol), price, id));
        return Success(Some(newOrder)), fills;
      }
      r := Failure(UnexpectedSide);
    }

    /**
     * addOrder: read the id, symbol, side, price and shares, in that order,
     * then place the order. The result is None when the order traded in full
     * and the resting order otherwise.
     */
    method AddOrder(msg: PitchMessage) returns (r: Result<Option<Order>>, ghost fills: seq<Fill>)
      requires Valid() && FreshId(views, msg.params)
      modifies this, idMap.Values
      ensures Valid()
      ensures var a := Add(old(State()), msg.params);
        State() == a.engine && fills == a.fills
        && r.Failure? == a.result.Failure? && (r.Failure? ==> r.error == a.result.error)
        && (r.Success? ==> r.value.Some? == a.result.value)
      ensures r.Success? && r.value.Some? ==> var o := r.value.value;
        fresh(o) && o.id in idMap && idMap[o.id] == o
      ensures dataService == old(dataService)
      ensures executions == old(executions) + (if dataService != null then fills else [])
    {
      AddKeepsLayout(State(), msg.params);
      fills := [];
      var req :- ParseAdd(msg.params);
      r, fills := PlaceOrder(req);
    }

    /** tradeShares on the indexed order x: shareDelta shares come off it and its view follows. */
    method TradeIndexed(x: Id, shareDelta: int)
      requires Indexed() && Coupled() && x in idMap
      modifies this, idMap[x]
      ensures Indexed() && Coupled()
      ensures idMap == old(idMap) && views == old(views)[x := Traded(old(views)[x], shareDelta)]
      ensures idMap[x].shares == old(idMap[x].shares) - shareDelta
      ensures buyBook == old(buyBook) && sellBook == old(sellBook) && lastPriceMap == old(lastPriceMap)
      ensures dataService == old(dataService) && executions == old(executions)
    {
      var order := idMap[x];
      order.TradeShares(shareDelta);
      forall k | k in idMap && k != x ensures idMap[k].View() == views[k] {
        assert idMap[k].id == k && old(idMap[k].View()) == old(views)[k];
      }
      views := views[x := order.View()];
    }

    /**
     * locateOrderQueue: the order's side book, symbol and price lead to its
     * level, which operator[] inserts (with the symbol) when missing; the
     * result is that price map and the level's position in it.
     */
    method LocateOrderQueue(orderId: Id) returns (r: Result<(PriceMap, nat)>)
      requires Indexed() && Coupled()
      modifies this
      ensures Indexed() && Coupled() && idMap == old(idMap) && views == old(views)
      ensures orderId !in views ==> r == Failure(OrderIdNotFound) && State() == old(State())
      ensures orderId in views ==>
        var v := views[orderId];
        var book := BookOf(old(State()), v.side);
        var before := GetOrEmpty(book, v.symbol);
        r == Success((WithLevel(before, v.price), LowerBound(before, v.price)))
        && State() == WithBook(old(State()), v.side, book[v.symbol := WithLevel(before, v.price)])
      ensures dataService == old(dataService) && executions == old(executions)
    {
      if orderId !in idMap {
        return Failure(OrderIdNotFound);
      }
      var order := idMap[orderId];
      assert order.View() == views[orderId];
      var own := if order.side == 'B' then buyBook else sellBook;
      var before := GetOrEmpty(own, order.symbol);
      var pm := WithLevel(before, order.price);
      StorePriceMap(order.side, order.symbol, pm);
      r := Success((pm, LowerBound(before, order.price)));
    }

    /**
     * cancelOrder: find the order's queue, find the order in it, take the
     * cancelled shares off, and at 0 shares or fewer drop the order from the
     * index and the queue (the level stays). The result is the error raised,
     * if any.
     */
    method CancelOrder(msg: PitchMessage) returns (err: Option<Error>)
      requires Indexed() && Coupled()
      modifies this, idMap.Values
      ensures Indexed() && Coupled()
      ensures var h := Cancel(old(State()), msg.params); State() == h.engine && err == h.error && h.fills == []
      ensures dataService == old(dataService) && executions == old(executions)
    {
      ghost var e0 := State();
      var orderIdResult := OrderId(msg.params);
      if orderIdResult.Failure? {
        return Some(orderIdResult.error);
      }
      var orderId := orderIdResult.value;
      var located := LocateOrderQueue(orderId);
      if located.Failure? {
        return Some(located.error);
      }
      var (pm, i) := located.value;
      ghost var v := views[orderId];
      assert BookOf(State(), v.side)[v.symbol] == pm;
      var found := FindInQueue(pm[i].queue, orderId);
      if found.None? {
        return Some(OrderNotInQueue);
      }
      var k := found.value;
      CancelFound(e0, msg.params, orderId, k);
      var sharesResult := Shares(msg.params);
      if sharesResult.Failure? {
        return Some(sharesResult.error);
      }
      WithBookTwice(e0, v.side, v.symbol, pm, pm[i := Level(pm[i].price, pm[i].queue[..k] + pm[i].queue[k + 1..])]);
      UpdateThenRemove(e0.orders, orderId, Traded(v, sharesResult.value));
      CancelShares(orderId, sharesResult.value, pm, i, k);
      err := None;
    }

    /** The search of cancelOrder for the order in its queue: the first position holding orderId. */
    method FindInQueue(queue: seq<Id>, orderId: Id) returns (r: Option<nat>)
      ensures r == IndexOf(queue, orderId)
    {
      var k := 0;
      while k < |queue| && queue[k] != orderId
        invariant 0 <= k <= |queue| && forall j :: 0 <= j < k ==> queue[j] != orderId
      {
        k := k + 1;
      }
      r := if k == |queue| then None else Some(k);
    }

    /**
     * The end of cancelOrder, once the order is at position k of level i of
     * pm, its own price map: it loses shareDelta shares, and at 0 shares or
     * fewer it leaves the index and the queue.
     */
    method CancelShares(orderId: Id, shareDelta: int, pm: PriceMap, i: nat, k: nat)
      requires Indexed() && Coupled() && orderId in idMap
      requires var v := views[orderId];
        v.symbol in BookOf(State(), v.side) && BookOf(State(), v.side)[v.symbol] == pm
        && i < |pm| && k < |pm[i].queue|
      modifies this, idMap[orderId]
      ensures Indexed() && Coupled()
      ensures var v := old(views)[orderId];
        var w := Traded(v, shareDelta);
        var q := pm[i].queue;
        State() == if w.shares <= 0
          then WithBook(old(State()), v.side, BookOf(old(State()), v.side)[v.symbol := pm[i := Level(pm[i].price, q[..k] + q[k + 1..])]])
                 .(orders := old(views)[orderId := w] - {orderId})
          else old(State()).(orders := old(views)[orderId := w])
      ensures dataService == old(dataService) && executions == old(executions)
    {
      var order := idMap[orderId];
      TradeIndexed(orderId, shareDelta);
      if order.shares <= 0 {
        var queue := pm[i].queue;
        var pm' := pm[i := Level(pm[i].price, queue[..k] + queue[k + 1..])];
        EraseId(orderId);
        StorePriceMap(order.side, order.symbol, pm');
      }
    }
  
    /**
     * ingestMessage: 'A' adds an order (its result is dropped), 'X' cancels,
     * 'P' is passed through untouched (forwardTrade has an empty body), and
     * any other type is an error. The result is the error raised, if any.
     */
    method IngestMessage(msg: PitchMessage) returns (err: Option<Error>, ghost fills: seq<Fill>)
      requires Valid() && IngestPre(State(), msg.params)
      modifies this, idMap.Values
      ensures Valid()
      ensures var h := Ingest(old(State()), msg.params); State() == h.engine && err == h.error && fills == h.fills
      ensures dataService == old(dataService)
      ensures executions == old(executions) + (if dataService != null then fills else [])
    {
      ghost var e0 := State();
      IngestKeepsLayout(e0, msg.params);
      fills := [];
      var msgType := MessageType(msg.params);
      if msgType.Failure? {
        return Some(msgType.error), [];
      }
      match msgType.value
      case 'A' =>
        var added;
        added, fills := AddOrder(msg);
        err := if added.Failure? then Some(added.error) else None;
      case 'X' =>
        err := CancelOrder(msg);
      case 'P' =>
        err := None;
      case _ =>
        err := Some(UnexpectedMessageType);
    }

    /** getBook: the buy or the sell book; any other side is an error. */
    method GetBook(side: char) returns (r: Result<Book>)
      ensures side == 'B' ==> r == Success(buyBook)
      ensures side == 'S' ==> r == Success(sellBook)
      ensures side != 'B' && side != 'S' ==> r == Failure(UnexpectedSide)
    {
      if side == 'B' {
        r := Success(buyBook);
      } else if side == 'S' {
        r := Success(sellBook);
      } else {
        r := Failure(UnexpectedSide);
      }
    }

    /** setDataService: later executions are reported to newDataService, or not at all when it is null. */
    method SetDataService(newDataService: DataService?)
      modifies this
      ensures dataService == newDataService
      ensures State() == old(State()) && idMap == old(idMap) && executions == old(executions)
      ensures old(Valid()) ==> Valid()
    {
      dataService := newDataService;
    }

    /** getLastPrice: the price of the symbol's most recent trade, if it ever traded. */
    function GetLastPrice(symbol: string): (r: Option<int>)
      reads this
      ensures r.Some? <==> symbol in State().lastPrice
      ensures r.Some? ==> r.value == State().lastPrice[symbol]
    {
      if symbol in lastPriceMap then Some(lastPriceMap[symbol]) else None
    }
  }
}
