/**
 * What the engine's entry points promise, proved on the value-level model:
 * adds conserve shares, fill at prices that cross the limit, best price
 * first, and rest at the tail of their level; failed adds and cancels change
 * nothing; a cancel either shrinks the order in place or takes it out of its
 * queue keeping the level; the last price follows the last fill.
 */
module EngineBehaviour {
  import opened Wrappers
  import opened Orders
  import opened PitchMessages
  import opened EngineSpec
  import opened EngineLayout
  import opened EngineProperties

  // ---------------------------------------------------------------------------
  // attemptTrade

  /** A sweep ends with the incoming order consumed only when it has no shares left. */
  lemma {:induction false} SweepConsumedEmpty(pm: PriceMap, orders: OrderViews, opp: char, limit: int, incoming: int)
    ensures var s := Sweep(pm, orders, opp, limit, incoming); s.consumed ==> s.remaining == 0 && s.fills != []
    decreases |pm|
  {
    match MatchOrder(pm, opp, limit)
    case None =>
    case Some(i) =>
      var c := ConsumeQueue(pm[i].queue, orders, incoming);
      assert c.fills != [];
      if c.remaining != 0 {
        SweepConsumedEmpty(pm[..i] + pm[i + 1..], c.orders, opp, limit, c.remaining);
      }
  }

  /** attemptTrade conserves shares: what is left plus what traded is what came in. */
  lemma AttemptConserves(e: Engine, symbol: string, side: char, limit: int, incoming: int)
    ensures var t := Attempt(e, symbol, side, limit, incoming);
      t.remaining + TotalShares(t.fills) == incoming && (t.consumed ==> t.remaining == 0 && t.fills != [])
  {
    var book := BookOf(e, OppositeSide(side));
    if symbol in book {
      SweepConserves(book[symbol], e.orders, OppositeSide(side), limit, incoming);
      SweepConsumedEmpty(book[symbol], e.orders, OppositeSide(side), limit, incoming);
    }
  }

  /**
   * The prices attemptTrade fills at: a buy never pays above its limit and
   * meets the cheapest sells first; any other side tag trades as a sell,
   * never below its limit and against the dearest buys first.
   */
  lemma AttemptPrices(e: Engine, symbol: string, side: char, limit: int, incoming: int)
    requires Layout(e)
    ensures var t := Attempt(e, symbol, side, limit, incoming);
      (side == 'B' ==> AllAtMost(t.fills, limit) && Rising(t.fills))
      && (side != 'B' ==> AllAtLeast(t.fills, limit) && Falling(t.fills))
  {
    var opp := OppositeSide(side);
    var book := BookOf(e, opp);
    if symbol in book {
      assert MapPlaced(book[symbol], e.orders, opp, symbol);
      SweepFillsCross(book[symbol], e.orders, opp, limit, incoming, symbol);
      SweepBestFirst(book[symbol], e.orders, opp, limit, incoming, symbol);
    }
  }

  // ---------------------------------------------------------------------------
  // The queue at one price

  /** The queue of the level at price, or nothing when no level has that price. */
  function QueueAt(pm: PriceMap, price: int): seq<Id> {
    if pm == [] then [] else if pm[0].price == price then pm[0].queue else QueueAt(pm[1..], price)
  }

  lemma {:induction false} QueueAtLevel(pm: PriceMap, j: nat)
    requires Sorted(pm) && j < |pm|
    ensures QueueAt(pm, pm[j].price) == pm[j].queue
    decreases j
  {
    if j > 0 {
      assert pm[0].price < pm[j].price;
      assert pm[1..][j - 1] == pm[j];
      QueueAtLevel(pm[1..], j - 1);
    }
  }

  lemma {:induction false} QueueAtMissing(pm: PriceMap, price: int)
    requires forall j :: 0 <= j < |pm| ==> pm[j].price != price
    ensures QueueAt(pm, price) == []
    decreases |pm|
  {
    if pm != [] {
      assert forall j :: 0 <= j < |pm[1..]| ==> pm[1..][j] == pm[j + 1];
      QueueAtMissing(pm[1..], price);
    }
  }

  /** Two sorted maps with the same level at p, or with no level at p, hold the same queue there. */
  lemma QueueAtSame(pm: PriceMap, pm': PriceMap, p: int)
    requires Sorted(pm) && Sorted(pm')
    requires forall j :: 0 <= j < |pm| && pm[j].price == p ==> exists j' :: 0 <= j' < |pm'| && pm'[j'] == pm[j]
    requires forall j' :: 0 <= j' < |pm'| && pm'[j'].price == p ==> exists j :: 0 <= j < |pm| && pm[j] == pm'[j']
    ensures QueueAt(pm, p) == QueueAt(pm', p)
  {
    if j :| 0 <= j < |pm| && pm[j].price == p {
      var j' :| 0 <= j' < |pm'| && pm'[j'] == pm[j];
      QueueAtLevel(pm, j);
      QueueAtLevel(pm', j');
    } else {
      forall j' | 0 <= j' < |pm'| ensures pm'[j'].price != p {
      }
      QueueAtMissing(pm, p);
      QueueAtMissing(pm', p);
    }
  }

  /** Pushing onto an existing level at price. */
  lemma PushAtExisting(pm: PriceMap, price: int, id: Id)
    requires Sorted(pm)
    requires var i := LowerBound(pm, price); i < |pm| && pm[i].price == price
    ensures var r := PushAt(pm, price, id);
      Sorted(r) && QueueAt(r, price) == QueueAt(pm, price) + [id]
      && forall p :: p != price ==> QueueAt(r, p) == QueueAt(pm, p)
  {
    var i := LowerBound(pm, price);
    var r := PushAt(pm, price, id);
    assert r == pm[i := Level(price, pm[i].queue + [id])];
    assert Sorted(r);
    QueueAtLevel(pm, i);
    QueueAtLevel(r, i);
    forall p | p != price ensures QueueAt(r, p) == QueueAt(pm, p) {
      forall j | 0 <= j < |pm| && pm[j].price == p ensures r[j] == pm[j] {
      }
      QueueAtSame(pm, r, p);
    }
  }

  /** Pushing where no level has the price: a new one-order level is inserted. */
  lemma PushAtFresh(pm: PriceMap, price: int, id: Id)
    requires Sorted(pm)
    requires var i := LowerBound(pm, price); !(i < |pm| && pm[i].price == price)
    ensures var r := PushAt(pm, price, id);
      Sorted(r) && QueueAt(r, price) == QueueAt(pm, price) + [id]
      && forall p :: p != price ==> QueueAt(r, p) == QueueAt(pm, p)
  {
    var i := LowerBound(pm, price);
    var lv := Level(price, [id]);
    var r := pm[..i] + [lv] + pm[i..];
    PushAtNewLevel(pm, price, id);
    InsertSorted(pm, i, lv);
    assert r[i] == lv;
    assert forall j :: 0 <= j < |pm| ==> pm[j].price != price by {
      forall j | i < j < |pm| ensures pm[i].price < pm[j].price {
      }
    }
    QueueAtMissing(pm, price);
    QueueAtLevel(r, i);
    forall p | p != price ensures QueueAt(r, p) == QueueAt(pm, p) {
      InsertedLevelKeeps(pm, i, lv, p);
    }
  }

  /** Inserting a level at another price leaves the queue at p as it was. */
  lemma InsertedLevelKeeps(pm: PriceMap, i: nat, lv: Level, p: int)
    requires i <= |pm| && Sorted(pm) && Sorted(pm[..i] + [lv] + pm[i..]) && lv.price != p
    ensures QueueAt(pm[..i] + [lv] + pm[i..], p) == QueueAt(pm, p)
  {
    var r := pm[..i] + [lv] + pm[i..];
    forall j | 0 <= j < |pm| && pm[j].price == p ensures exists j' :: 0 <= j' < |r| && r[j'] == pm[j] {
      if j < i { assert r[j] == pm[j]; } else { assert r[j + 1] == pm[j]; }
    }
    forall j' | 0 <= j' < |r| && r[j'].price == p ensures exists j :: 0 <= j < |pm| && pm[j] == r[j'] {
      if j' < i { assert r[j'] == pm[j']; } else { assert j' != i; assert r[j'] == pm[j' - 1]; }
    }
    QueueAtSame(pm, r, p);
  }

  /**
   * priceMap[price].push_back(id) on a sorted map: id joins the tail of the
   * queue at price, the map stays sorted, and every other price keeps its queue.
   */
  lemma PushAtTail(pm: PriceMap, price: int, id: Id)
    requires Sorted(pm)
    ensures var r := PushAt(pm, price, id);
      Sorted(r) && QueueAt(r, price) == QueueAt(pm, price) + [id]
      && forall p :: p != price ==> QueueAt(r, p) == QueueAt(pm, p)
  {
    var i := LowerBound(pm, price);
    if i < |pm| && pm[i].price == price {
      PushAtExisting(pm, price, id);
    } else {
      PushAtFresh(pm, price, id);
    }
  }

  // ---------------------------------------------------------------------------
  // addOrder

  /** An add that fails for any reason but a bad side tag changes nothing and trades nothing. */
  lemma AddFailsCleanly(e: Engine, p: Params)
    ensures var a := Add(e, p);
      a.result.Failure? && a.result.error != UnexpectedSide ==> a.engine == e && a.fills == []
    ensures ParseAdd(p).Failure? ==> Add(e, p).result == Failure(ParseAdd(p).error)
    ensures ParseAdd(p).Success? && ParseAdd(p).value.symbol !in e.buy ==> Add(e, p).result == Failure(UnknownSymbol)
  {
  }

  /**
   * A side tag other than 'B' or 'S' trades exactly as a sell would; then the
   * add fails with UnexpectedSide unless nothing was left to rest.
   */
  lemma AddBadSide(e: Engine, p: Params)
    requires ParseAdd(p).Success? && ParseAdd(p).value.symbol in e.buy
    requires ParseAdd(p).value.side != 'B' && ParseAdd(p).value.side != 'S'
    ensures var r := ParseAdd(p).value;
      var asSell := Attempt(e, r.symbol, 'S', r.price, r.shares);
      var a := Add(e, p);
      a.fills == asSell.fills && a.engine.buy == asSell.engine.buy && a.engine.sell == asSell.engine.sell
      && a.engine.lastPrice == asSell.engine.lastPrice
      && a.result == if asSell.consumed then Success(false) else Failure(UnexpectedSide)
  {
  }

  /**
   * An add whose order is used up entirely never rests: the id is in no
   * book and not in the index, and the fills add up to the order's shares.
   */
  lemma AddConsumed(e: Engine, p: Params)
    requires Layout(e) && FreshId(e.orders, p)
    requires Add(e, p).result == Success(false)
    ensures var r := ParseAdd(p).value;
      var a := Add(e, p);
      a.engine == Attempt(e, r.symbol, r.side, r.price, r.shares).engine
      && r.id !in a.engine.orders && TotalShares(a.fills) == r.shares
      && (forall s :: s in a.engine.buy ==> !InMap(a.engine.buy[s], r.id))
      && (forall s :: s in a.engine.sell ==> !InMap(a.engine.sell[s], r.id))
  {
    var r := ParseAdd(p).value;
    var t := Attempt(e, r.symbol, r.side, r.price, r.shares);
    AttemptKeepsLayout(e, r.symbol, r.side, r.price, r.shares);
    AttemptConserves(e, r.symbol, r.side, r.price, r.shares);
    RemoveAbsent(t.engine.orders, r.id);
    var a := Add(e, p);
    assert a.engine == t.engine;
    forall s | s in a.engine.buy ensures !InMap(a.engine.buy[s], r.id) {
      if InMap(a.engine.buy[s], r.id) {
        InMapPlaced(a.engine.buy[s], a.engine.orders, 'B', s, r.id);
      }
    }
    forall s | s in a.engine.sell ensures !InMap(a.engine.sell[s], r.id) {
      if InMap(a.engine.sell[s], r.id) {
        InMapPlaced(a.engine.sell[s], a.engine.orders, 'S', s, r.id);
      }
    }
  }

  /** The engine an add leaves when its order rests: attemptTrade's, with the order indexed and pushed onto its own side. */
  lemma AddRestShape(e: Engine, p: Params)
    requires Layout(e) && FreshId(e.orders, p)
    requires Add(e, p).result == Success(true)
    ensures var r := ParseAdd(p).value;
      var t := Attempt(e, r.symbol, r.side, r.price, r.shares);
      var before := GetOrEmpty(BookOf(e, r.side), r.symbol);
      (r.side == 'B' || r.side == 'S') && r.id !in t.engine.orders && BookOf(t.engine, r.side) == BookOf(e, r.side)
      && t.remaining + TotalShares(t.fills) == r.shares && Sorted(before)
      && Add(e, p) == Added(WithBook(t.engine, r.side, BookOf(e, r.side)[r.symbol := PushAt(before, r.price, r.id)])
                              .(orders := t.engine.orders[r.id := OrderView(r.symbol, t.remaining, r.price, r.side)]),
                            Success(true), t.fills)
  {
    var r := ParseAdd(p).value;
    AttemptKeepsLayout(e, r.symbol, r.side, r.price, r.shares);
    AttemptConserves(e, r.symbol, r.side, r.price, r.shares);
    if r.symbol in BookOf(e, r.side) {
      assert MapPlaced(BookOf(e, r.side)[r.symbol], e.orders, r.side, r.symbol);
    }
  }

  /**
   * An add that rests indexes its order with the shares that did not trade,
   * appends its id to the tail of its own side's queue at its limit price,
   * and leaves every other price of that symbol as it was.
   */
  lemma AddRests(e: Engine, p: Params)
    requires Layout(e) && FreshId(e.orders, p)
    requires Add(e, p).result == Success(true)
    ensures var r := ParseAdd(p).value;
      var a := Add(e, p);
      var before := GetOrEmpty(BookOf(e, r.side), r.symbol);
      var after := BookOf(a.engine, r.side)[r.symbol];
      r.symbol in BookOf(a.engine, r.side)
      && r.id in a.engine.orders && a.engine.orders[r.id].symbol == r.symbol
      && a.engine.orders[r.id].price == r.price && a.engine.orders[r.id].side == r.side
      && a.engine.orders[r.id].shares + TotalShares(a.fills) == r.shares
      && QueueAt(after, r.price) == QueueAt(before, r.price) + [r.id]
      && forall q :: q != r.price ==> QueueAt(after, q) == QueueAt(before, q)
  {
    var r := ParseAdd(p).value;
    AddRestShape(e, p);
    PushAtTail(GetOrEmpty(BookOf(e, r.side), r.symbol), r.price, r.id);
  }

  // ---------------------------------------------------------------------------
  // cancelOrder

  /** The queue without id, everything else in order. */
  function Erase(q: seq<Id>, id: Id): seq<Id> {
    if q == [] then [] else (if q[0] == id then [] else [q[0]]) + Erase(q[1..], id)
  }

  lemma {:induction false} EraseAbsent(q: seq<Id>, id: Id)
    requires id !in q
    ensures Erase(q, id) == q
    decreases |q|
  {
    if q != [] {
      EraseAbsent(q[1..], id);
    }
  }

  lemma {:induction false} EraseRemoves(q: seq<Id>, id: Id)
    ensures id !in Erase(q, id)
    decreases |q|
  {
    if q != [] {
      EraseRemoves(q[1..], id);
    }
  }

  /** Taking out the one entry that holds id is erasing id. */
  lemma {:induction false} EraseAt(q: seq<Id>, k: nat, id: Id)
    requires NoDup(q) && k < |q| && q[k] == id
    ensures q[..k] + q[k + 1..] == Erase(q, id) && id !in Erase(q, id)
    decreases k
  {
    var t := q[1..];
    assert NoDup(t) by {
      forall a, b | 0 <= a < b < |t| ensures t[a] != t[b] {
        assert t[a] == q[a + 1] && t[b] == q[b + 1];
      }
    }
    if k == 0 {
      assert id !in t by {
        forall m | 0 <= m < |t| ensures t[m] != id {
          assert t[m] == q[m + 1];
        }
      }
      EraseAbsent(t, id);
    } else {
      assert q[0] != q[k];
      EraseAt(t, k - 1, id);
      assert q[..k] + q[k + 1..] == [q[0]] + (t[..k - 1] + t[k..]);
    }
  }

  /** Erasing a queued id from its level's queue erases it from the whole placed map and keeps every level. */
  lemma EraseFromMap(pm: PriceMap, orders: OrderViews, side: char, symbol: string, i: nat, id: Id)
    requires MapPlaced(pm, orders, side, symbol) && i < |pm| && id in pm[i].queue
    ensures var pm' := pm[i := Level(pm[i].price, Erase(pm[i].queue, id))];
      |pm'| == |pm| && (forall j :: 0 <= j < |pm| ==> pm'[j] == Level(pm[j].price, Erase(pm[j].queue, id)))
      && !InMap(pm', id)
  {
    var pm' := pm[i := Level(pm[i].price, Erase(pm[i].queue, id))];
    forall j | 0 <= j < |pm| && j != i ensures Erase(pm[j].queue, id) == pm[j].queue {
      LevelsDisjoint(pm, orders, side, symbol, j, i, id);
      EraseAbsent(pm[j].queue, id);
    }
    EraseRemoves(pm[i].queue, id);
    assert !InMap(pm', id) by {
      forall j | 0 <= j < |pm'| ensures id !in pm'[j].queue {
      }
    }
  }

  /**
   * cancelOrder on an indexed id under the layout: the lookup finds the
   * order's level in place without inserting anything, finds the order in
   * its queue, and then either fails on the share count, shrinks the order,
   * or erases it from the queue and the index.
   */
  lemma CancelLocated(e: Engine, p: Params, id: Id)
    requires Layout(e) && OrderId(p) == Success(id) && id in e.orders
    ensures var v := e.orders[id];
      var book := BookOf(e, v.side);
      (v.side == 'B' || v.side == 'S') && v.symbol in book
      && var pm := book[v.symbol];
      var i := LowerBound(pm, v.price);
      i < |pm| && pm[i].price == v.price && id in pm[i].queue && NoDup(pm[i].queue)
      && var erased := pm[i := Level(pm[i].price, Erase(pm[i].queue, id))];
      match Shares(p)
      case Failure(err) => Cancel(e, p) == Handled(e, Some(err), [])
      case Success(n) =>
        if v.shares - n <= 0 then
          Cancel(e, p) == Handled(WithBook(e, v.side, book[v.symbol := erased]).(orders := e.orders - {id}), None, [])
        else Cancel(e, p) == Handled(e.(orders := e.orders[id := Traded(v, n)]), None, [])
  {
    CancelFinds(e, id);
    var v := e.orders[id];
    var book := BookOf(e, v.side);
    var pm := book[v.symbol];
    var i := LowerBound(pm, v.price);
    var q := pm[i].queue;
    var k := IndexOf(q, id).value;
    assert MapPlaced(pm, e.orders, v.side, v.symbol);
    assert LevelPlaced(pm[i], e.orders, v.side, v.symbol);
    EraseAt(q, k, id);
    CancelFound(e, p, id, k);
    assert book[v.symbol := pm] == book;
    assert WithBook(e, v.side, book) == e;
  }

  /**
   * Under the layout every cancel that fails changes nothing, the queue
   * lookup never misses, and no cancel trades or moves the last price.
   */
  lemma CancelOutcomes(e: Engine, p: Params)
    requires Layout(e)
    ensures var h := Cancel(e, p);
      h.fills == [] && h.engine.lastPrice == e.lastPrice && h.error != Some(OrderNotInQueue)
      && (h.error.Some? ==> h.engine == e)
      && (OrderId(p).Success? && OrderId(p).value !in e.orders ==> h.error == Some(OrderIdNotFound))
  {
    match OrderId(p)
    case Failure(_) =>
    case Success(id) =>
      if id in e.orders {
        CancelFoundOutcomes(e, p, id);
      }
  }

  /** CancelOutcomes for an indexed id: the three outcomes CancelLocated gives, none of them trading. */
  lemma CancelFoundOutcomes(e: Engine, p: Params, id: Id)
    requires Layout(e) && OrderId(p) == Success(id) && id in e.orders
    ensures var h := Cancel(e, p);
      h.fills == [] && h.engine.lastPrice == e.lastPrice && h.error != Some(OrderNotInQueue)
      && (h.error.Some? ==> h.engine == e)
  {
    CancelLocated(e, p, id);
    match Shares(p)
    case Failure(err) =>
      assert Cancel(e, p) == Handled(e, Some(err), []);
    case Success(n) =>
      assert Cancel(e, p).error == None;
  }

  /** A cancel that leaves shares shrinks the order where it stands: the books, its queue place included, do not move. */
  lemma CancelPartial(e: Engine, p: Params)
    requires Layout(e) && OrderId(p).Success? && OrderId(p).value in e.orders && Shares(p).Success?
    requires e.orders[OrderId(p).value].shares - Shares(p).value > 0
    ensures var id := OrderId(p).value;
      Cancel(e, p) == Handled(e.(orders := e.orders[id := Traded(e.orders[id], Shares(p).value)]), None, [])
  {
    CancelLocated(e, p, OrderId(p).value);
  }

  /**
   * A cancel of all the shares (or more) takes the order out of the index
   * and out of its queue, keeping the others in order and keeping every
   * level, even one left empty; nothing else in either book moves.
   */
  lemma CancelFull(e: Engine, p: Params)
    requires Layout(e) && OrderId(p).Success? && OrderId(p).value in e.orders && Shares(p).Success?
    requires e.orders[OrderId(p).value].shares - Shares(p).value <= 0
    ensures var id := OrderId(p).value;
      var v := e.orders[id];
      var h := Cancel(e, p);
      var pm := BookOf(e, v.side)[v.symbol];
      var pm' := BookOf(h.engine, v.side)[v.symbol];
      h.error == None && h.fills == [] && h.engine.orders == e.orders - {id} && h.engine.lastPrice == e.lastPrice
      && (v.side == 'B' || v.side == 'S') && v.symbol in BookOf(e, v.side)
      && BookOf(h.engine, OppositeSide(v.side)) == BookOf(e, OppositeSide(v.side))
      && BookOf(h.engine, v.side) == BookOf(e, v.side)[v.symbol := pm']
      && |pm'| == |pm| && (forall j :: 0 <= j < |pm| ==> pm'[j] == Level(pm[j].price, Erase(pm[j].queue, id)))
      && !InMap(pm', id)
  {
    var id := OrderId(p).value;
    CancelLocated(e, p, id);
    var v := e.orders[id];
    var pm := BookOf(e, v.side)[v.symbol];
    var i := LowerBound(pm, v.price);
    var pm' := pm[i := Level(pm[i].price, Erase(pm[i].queue, id))];
    var e' := WithBook(e, v.side, BookOf(e, v.side)[v.symbol := pm']).(orders := e.orders - {id});
    assert Cancel(e, p) == Handled(e', None, []);
    assert BookOf(e', v.side)[v.symbol] == pm';
    EraseFromMap(pm, e.orders, v.side, v.symbol, i, id);
  }

  /** Cancelling an id a second time, once it is fully cancelled, reports it unknown and changes nothing. */
  lemma CancelTwice(e: Engine, p: Params, p': Params)
    requires Layout(e) && OrderId(p).Success? && OrderId(p).value in e.orders && Shares(p).Success?
    requires e.orders[OrderId(p).value].shares - Shares(p).value <= 0
    requires OrderId(p') == OrderId(p)
    ensures var e' := Cancel(e, p).engine; Cancel(e', p') == Handled(e', Some(OrderIdNotFound), [])
  {
    CancelFull(e, p);
  }

  // ---------------------------------------------------------------------------
  // ingestMessage and the last price

  /**
   * Only an Add that traded moves the last price, and then only its
   * symbol's, to the price of the last fill; every other message leaves
   * the last prices as they were.
   */
  lemma IngestLastPrice(e: Engine, p: Params)
    ensures var h := Ingest(e, p);
      (h.fills == [] ==> h.engine.lastPrice == e.lastPrice)
      && (h.fills != [] ==>
            MessageType(p) == Success('A') && Symbol(p).Success?
            && h.engine.lastPrice == e.lastPrice[Symbol(p).value := h.fills[|h.fills| - 1].price])
  {
    match MessageType(p)
    case Failure(_) =>
    case Success(t) =>
      if t == 'A' {
        AddLastPrice(e, p);
      } else if t == 'X' {
        CancelLeavesLastPrice(e, p);
      }
  }

  /** An add moves its symbol's last price to its last fill's price, and only when it traded. */
  lemma AddLastPrice(e: Engine, p: Params)
    ensures var a := Add(e, p);
      (a.fills == [] ==> a.engine.lastPrice == e.lastPrice)
      && (a.fills != [] ==>
            ParseAdd(p).Success? && Symbol(p) == Success(ParseAdd(p).value.symbol)
            && a.engine.lastPrice == e.lastPrice[ParseAdd(p).value.symbol := a.fills[|a.fills| - 1].price])
  {
    match ParseAdd(p)
    case Failure(_) =>
    case Success(r) =>
      assert Add(e, p) == AddParsed(e, r);
      AddParsedLastPrice(e, r);
  }

  /** A parsed add sets the last price of its symbol to that of its last fill, if any. */
  lemma AddParsedLastPrice(e: Engine, a: AddRequest)
    ensures var r := AddParsed(e, a); r.engine.lastPrice == LastPriceAfter(e.lastPrice, a.symbol, r.fills)
  {
    if a.symbol in e.buy {
      var t := Attempt(e, a.symbol, a.side, a.price, a.shares);
      AttemptLastPrice(e, a.symbol, a.side, a.price, a.shares);
      assert AddParsed(e, a).engine.lastPrice == t.engine.lastPrice && AddParsed(e, a).fills == t.fills;
    }
  }

  /** attemptTrade sets the last price of its symbol to that of its last fill, if any. */
  lemma AttemptLastPrice(e: Engine, symbol: string, side: char, limit: int, incoming: int)
    ensures var t := Attempt(e, symbol, side, limit, incoming);
      t.engine.lastPrice == LastPriceAfter(e.lastPrice, symbol, t.fills)
  {
  }

  /** No cancel trades or moves a last price, whether or not it finds its order. */
  lemma CancelLeavesLastPrice(e: Engine, p: Params)
    ensures Cancel(e, p).engine.lastPrice == e.lastPrice && Cancel(e, p).fills == []
  {
    match OrderId(p)
    case Failure(_) =>
    case Success(id) =>
      if id in e.orders {
        CancelFoundLeavesLastPrice(e, p, id);
      }
  }

  /** CancelLeavesLastPrice once the id is known to be indexed. */
  lemma CancelFoundLeavesLastPrice(e: Engine, p: Params, id: Id)
    requires OrderId(p) == Success(id) && id in e.orders
    ensures Cancel(e, p).engine.lastPrice == e.lastPrice && Cancel(e, p).fills == []
  {
    var v := e.orders[id];
    var book := BookOf(e, v.side);
    var before := GetOrEmpty(book, v.symbol);
    var i := LowerBound(before, v.price);
    var pm := WithLevel(before, v.price);
    var located := WithBook(e, v.side, book[v.symbol := pm]);
    assert located.lastPrice == e.lastPrice;
    var q := pm[i].queue;
    match IndexOf(q, id)
    case None =>
      assert Cancel(e, p) == Handled(located, Some(OrderNotInQueue), []);
    case Some(k) =>
      match Shares(p)
      case Failure(err) =>
        assert Cancel(e, p) == Handled(located, Some(err), []);
      case Success(n) =>
        var w := Traded(v, n);
        if w.shares <= 0 {
          var pm' := pm[i := Level(pm[i].price, q[..k] + q[k + 1..])];
          assert Cancel(e, p) == Handled(WithBook(e, v.side, book[v.symbol := pm']).(orders := e.orders - {id}), None, []);
          assert WithBook(e, v.side, book[v.symbol := pm']).lastPrice == e.lastPrice;
        } else {
          assert Cancel(e, p) == Handled(located.(orders := e.orders[id := w]), None, []);
        }
  }
}
