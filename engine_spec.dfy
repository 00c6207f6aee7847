/**
 * The matching engine as values. A book maps a symbol to its price map; a
 * price map is the sorted vector of price levels a flat_map keeps, each level
 * a FIFO queue of order ids; the id index is a map from id to the order's
 * current value. The functions below compute, for each entry point of the
 * engine, the state it leaves behind, in the same order of steps as the code,
 * and the class in MatchingEngines is proved to follow them.
 */
module EngineSpec {
  import opened Wrappers
  import opened Orders
  import opened PitchMessages

  type Id = string

  /** One price level: its price in ticks and the ids resting there, oldest first. */
  datatype Level = Level(price: int, queue: seq<Id>)

  /** The levels of one symbol on one side, in increasing price order. */
  type PriceMap = seq<Level>

  type Book = map<string, PriceMap>

  type OrderViews = map<Id, OrderView>

  /** One execution: the resting order, the shares traded and the resting order's price. */
  datatype Fill = Fill(orderId: Id, shares: int, price: int)

  datatype Engine = Engine(buy: Book, sell: Book, orders: OrderViews, lastPrice: map<string, int>)

  predicate Sorted(pm: PriceMap) {
    forall a, b :: 0 <= a < b < |pm| ==> pm[a].price < pm[b].price
  }

  predicate NoDup(q: seq<Id>) {
    forall a, b :: 0 <= a < b < |q| ==> q[a] != q[b]
  }

  function Min(a: int, b: int): int {
    if a <= b then a else b
  }

  function GetOrEmpty(book: Book, symbol: string): PriceMap {
    if symbol in book then book[symbol] else []
  }

  /** The order stored under id; an id with no order reads as an empty one (the engine never queues such an id). */
  function ViewOf(orders: OrderViews, id: Id): OrderView {
    if id in orders then orders[id] else OrderView("", 0, 0, ' ')
  }

  /**
   * The level an incoming order meets: against the buy side the highest level,
   * against the sell side the lowest, and only when it crosses the limit and
   * still holds orders. No other level is looked at.
   */
  function MatchOrder(pm: PriceMap, oppositeSide: char, limit: int): (r: Option<nat>)
    ensures r.Some? ==> r.value < |pm| && pm[r.value].queue != []
    ensures r.Some? && oppositeSide == 'B' ==> r.value == |pm| - 1 && pm[r.value].price >= limit
    ensures r.Some? && oppositeSide == 'S' ==> r.value == 0 && pm[r.value].price <= limit
    ensures oppositeSide != 'B' && oppositeSide != 'S' ==> r.None?
    ensures oppositeSide == 'B' && pm != [] && pm[|pm| - 1].price >= limit && pm[|pm| - 1].queue != [] ==> r.Some?
    ensures oppositeSide == 'S' && pm != [] && pm[0].price <= limit && pm[0].queue != [] ==> r.Some?
  {
    if pm == [] then None
    else if oppositeSide == 'B' then
      if pm[|pm| - 1].price >= limit && pm[|pm| - 1].queue != [] then Some(|pm| - 1) else None
    else if oppositeSide == 'S' then
      if pm[0].price <= limit && pm[0].queue != [] then Some(0) else None
    else None
  }

  /** What trading against one queue leaves: the rest of the queue, the orders, the incoming shares left, the fills. */
  datatype Consumed = Consumed(queue: seq<Id>, orders: OrderViews, remaining: int, fills: seq<Fill>)

  /**
   * The inner loop of attemptTrade: the head of the queue trades
   * min(resting, incoming) shares; a resting order left with 0 shares leaves
   * the queue and the index; the loop goes on while the incoming order has
   * shares and the queue has orders.
   */
  function ConsumeQueue(q: seq<Id>, orders: OrderViews, incoming: int): Consumed
    decreases |q|
  {
    if q == [] then Consumed(q, orders, incoming, [])
    else
      var v := ViewOf(orders, q[0]);
      var delta := Min(v.shares, incoming);
      var fill := Fill(q[0], delta, v.price);
      var left := incoming - delta;
      if v.shares - delta == 0 then
        if left == 0 then Consumed(q[1..], orders - {q[0]}, 0, [fill])
        else
          var c := ConsumeQueue(q[1..], orders - {q[0]}, left);
          Consumed(c.queue, c.orders, c.remaining, [fill] + c.fills)
      else
        Consumed(q, orders[q[0] := Traded(v, delta)], left, [fill])
  }

  /** What trading against one price map leaves; consumed says the incoming order was used up. */
  datatype Swept = Swept(levels: PriceMap, orders: OrderViews, remaining: int, fills: seq<Fill>, consumed: bool)

  /**
   * The outer loop of attemptTrade: consume the matched level; if the
   * incoming order is used up, stop and keep the level (even emptied);
   * otherwise erase the drained level and match again.
   */
  function Sweep(pm: PriceMap, orders: OrderViews, oppositeSide: char, limit: int, incoming: int): Swept
    decreases |pm|
  {
    match MatchOrder(pm, oppositeSide, limit)
    case None => Swept(pm, orders, incoming, [], false)
    case Some(i) =>
      var c := ConsumeQueue(pm[i].queue, orders, incoming);
      if c.remaining == 0 then Swept(pm[i := Level(pm[i].price, c.queue)], c.orders, 0, c.fills, true)
      else
        var rest := Sweep(pm[..i] + pm[i + 1..], c.orders, oppositeSide, limit, c.remaining);
        Swept(rest.levels, rest.orders, rest.remaining, c.fills + rest.fills, rest.consumed)
  }

  function OppositeSide(side: char): char {
    if side == 'B' then 'S' else 'B'
  }

  /** The engine with one side's book replaced; any tag but 'B' selects the sell book, as the code's ternaries do. */
  function WithBook(e: Engine, side: char, book: Book): Engine {
    if side == 'B' then e.(buy := book) else e.(sell := book)
  }

  function BookOf(e: Engine, side: char): Book {
    if side == 'B' then e.buy else e.sell
  }

  function LastPriceAfter(lastPrice: map<string, int>, symbol: string, fills: seq<Fill>): map<string, int> {
    if fills == [] then lastPrice else lastPrice[symbol := fills[|fills| - 1].price]
  }

  datatype Attempted = Attempted(engine: Engine, remaining: int, fills: seq<Fill>, consumed: bool)

  /**
   * attemptTrade for an incoming order: operator[] on the opposite book runs
   * first and inserts an empty price map for an unknown symbol, in which case
   * nothing trades; otherwise the opposite price map is swept and the last
   * price becomes the price of the last fill.
   */
  function Attempt(e: Engine, symbol: string, side: char, limit: int, incoming: int): Attempted {
    var opp := OppositeSide(side);
    var book := BookOf(e, opp);
    if symbol !in book then Attempted(WithBook(e, opp, book[symbol := []]), incoming, [], false)
    else
      var s := Sweep(book[symbol], e.orders, opp, limit, incoming);
      var e' := WithBook(e, opp, book[symbol := s.levels]);
      Attempted(e'.(orders := s.orders, lastPrice := LastPriceAfter(e.lastPrice, symbol, s.fills)),
                s.remaining, s.fills, s.consumed)
  }

  /** The index of the first level whose price is at least price (binary search on a sorted vector). */
  function LowerBound(pm: PriceMap, price: int): (i: nat)
    ensures i <= |pm|
    ensures forall k :: 0 <= k < i ==> pm[k].price < price
    ensures i < |pm| ==> pm[i].price >= price
  {
    if pm == [] || pm[0].price >= price then 0 else 1 + LowerBound(pm[1..], price)
  }

  /** The price map after priceMap[price]: the level at that price, inserted empty when missing. */
  function WithLevel(pm: PriceMap, price: int): (r: PriceMap)
    ensures LowerBound(pm, price) < |r| && r[LowerBound(pm, price)].price == price
  {
    var i := LowerBound(pm, price);
    if i < |pm| && pm[i].price == price then pm else pm[..i] + [Level(price, [])] + pm[i..]
  }

  /** priceMap[price].push_back(id). */
  function PushAt(pm: PriceMap, price: int, id: Id): PriceMap {
    var i := LowerBound(pm, price);
    var r := WithLevel(pm, price);
    r[i := Level(price, r[i].queue + [id])]
  }

  /** The fields of an Add Order message, read in the order addOrder reads them. */
  datatype AddRequest = AddRequest(id: Id, symbol: string, side: char, price: int, shares: int)

  function ParseAdd(p: Params): Result<AddRequest> {
    var id :- OrderId(p);
    var symbol :- Symbol(p);
    var side :- Side(p);
    var price :- PriceTicks(p);
    var shares :- Shares(p);
    Success(AddRequest(id, symbol, side, price, shares))
  }

  /** The engine after an Add, whether the order now rests (addOrder's non-null result), and the fills. */
  datatype Added = Added(engine: Engine, result: Result<bool>, fills: seq<Fill>)

  /**
   * addOrder: parse, reject a symbol the buy book does not know, trade, then
   * index the remainder (emplace: an id already present keeps its entry) and
   * append it to its own side's level at its limit price.
   */
  function Add(e: Engine, p: Params): Added {
    match ParseAdd(p)
    case Failure(err) => Added(e, Failure(err), [])
    case Success(a) => AddParsed(e, a)
  }

  /** addOrder once its fields are read. */
  function AddParsed(e: Engine, a: AddRequest): Added {
    if a.symbol !in e.buy then Added(e, Failure(UnknownSymbol), [])
    else
      var t := Attempt(e, a.symbol, a.side, a.price, a.shares);
      if t.consumed then Added(t.engine.(orders := t.engine.orders - {a.id}), Success(false), t.fills)
      else if a.side == 'B' || a.side == 'S' then
        var orders := t.engine.orders;
        var indexed := if a.id in orders then orders else orders[a.id := OrderView(a.symbol, t.remaining, a.price, a.side)];
        var book := BookOf(t.engine, a.side);
        var pushed := book[a.symbol := PushAt(GetOrEmpty(book, a.symbol), a.price, a.id)];
        Added(WithBook(t.engine, a.side, pushed).(orders := indexed), Success(true), t.fills)
      else Added(t.engine, Failure(UnexpectedSide), t.fills)
  }

  /** The first position of id in q. */
  function IndexOf(q: seq<Id>, id: Id): (r: Option<nat>)
    ensures r.Some? ==> r.value < |q| && q[r.value] == id && forall k :: 0 <= k < r.value ==> q[k] != id
    ensures r.None? <==> id !in q
  {
    if q == [] then None
    else if q[0] == id then Some(0)
    else match IndexOf(q[1..], id)
      case None => None
      case Some(k) => Some(k + 1)
  }

  /** The engine after a message that is not an Add, or after an Add whose result is dropped, and the fills. */
  datatype Handled = Handled(engine: Engine, error: Option<Error>, fills: seq<Fill>)

  /**
   * cancelOrder: find the order's queue through the index (operator[] inserts
   * a missing symbol or level), find the order in it, then take the cancelled
   * shares off; at 0 or fewer the order leaves the queue and the index but
   * the level stays, even empty.
   */
  function Cancel(e: Engine, p: Params): Handled {
    match OrderId(p)
    case Failure(err) => Handled(e, Some(err), [])
    case Success(id) =>
      if id !in e.orders then Handled(e, Some(OrderIdNotFound), [])
      else
        var v := e.orders[id];
        var book := BookOf(e, v.side);
        var before := GetOrEmpty(book, v.symbol);
        var i := LowerBound(before, v.price);
        var pm := WithLevel(before, v.price);
        var located := WithBook(e, v.side, book[v.symbol := pm]);
        var q := pm[i].queue;
        match IndexOf(q, id)
        case None => Handled(located, Some(OrderNotInQueue), [])
        case Some(k) =>
          match Shares(p)
          case Failure(err) => Handled(located, Some(err), [])
          case Success(n) =>
            var w := Traded(v, n);
            if w.shares <= 0 then
              var pm' := pm[i := Level(pm[i].price, q[..k] + q[k + 1..])];
              Handled(WithBook(e, v.side, book[v.symbol := pm']).(orders := e.orders - {id}), None, [])
            else
              Handled(located.(orders := e.orders[id := w]), None, [])
  }

  /** ingestMessage: 'A' adds, 'X' cancels, 'P' passes through untouched, anything else is an error. */
  function Ingest(e: Engine, p: Params): Handled {
    match MessageType(p)
    case Failure(err) => Handled(e, Some(err), [])
    case Success(t) =>
      if t == 'A' then
        var a := Add(e, p);
        Handled(a.engine, if a.result.Failure? then Some(a.result.error) else None, a.fills)
      else if t == 'X' then Cancel(e, p)
      else if t == 'P' then Handled(e, None, [])
      else Handled(e, Some(UnexpectedMessageType), [])
  }

  /** populateSymbols on one book: every listed symbol gets an empty price map unless it has one. */
  function Populated(book: Book, symbols: seq<string>): (r: Book)
    ensures forall s :: s in r <==> s in book || s in symbols
    ensures forall s :: s in book ==> r[s] == book[s]
    ensures forall s :: s in r && s !in book ==> r[s] == []
  {
    map s | s in book.Keys + (set x | x in symbols) :: if s in book then book[s] else []
  }

  /** One more fill sets the symbol's last price to that fill's price. */
  lemma LastPriceSnoc(lastPrice: map<string, int>, symbol: string, fills: seq<Fill>, f: Fill)
    ensures LastPriceAfter(LastPriceAfter(lastPrice, symbol, fills), symbol, [f]) == LastPriceAfter(lastPrice, symbol, fills + [f])
    ensures LastPriceAfter(lastPrice, symbol, fills + [f]) == LastPriceAfter(lastPrice, symbol, fills)[symbol := f.price]
  {
  }

  /**
   * One step of ConsumeQueue on a non-empty queue, case by case: a head left
   * with shares means the incoming order is used up; a head traded out leaves
   * queue and index, and the loop stops or goes on with the rest.
   */
  lemma ConsumeStep(q: seq<Id>, orders: OrderViews, incoming: int)
    requires q != []
    ensures var v := ViewOf(orders, q[0]);
      var delta := Min(v.shares, incoming);
      var left := incoming - delta;
      var fill := Fill(q[0], delta, v.price);
      var c := ConsumeQueue(q, orders, incoming);
      if v.shares - delta != 0 then left == 0 && c == Consumed(q, orders[q[0] := Traded(v, delta)], 0, [fill])
      else if left == 0 then c == Consumed(q[1..], orders - {q[0]}, 0, [fill])
      else var rest := ConsumeQueue(q[1..], orders - {q[0]}, left);
        c == Consumed(rest.queue, rest.orders, rest.remaining, [fill] + rest.fills)
  {
  }

  /** c with the fills f recorded before it. */
  function AfterFills(f: seq<Fill>, c: Consumed): Consumed {
    Consumed(c.queue, c.orders, c.remaining, f + c.fills)
  }

  lemma AfterFillsTwice(f: seq<Fill>, g: seq<Fill>, c: Consumed)
    ensures AfterFills(f, AfterFills(g, c)) == AfterFills(f + g, c)
  {
    assert f + (g + c.fills) == f + g + c.fills;
  }

  /** Listing one more symbol adds it with an empty price map unless the book already has it. */
  lemma PopulatedSnoc(book: Book, symbols: seq<string>, x: string)
    ensures var r := Populated(book, symbols);
      Populated(book, symbols + [x]) == if x in r then r else r[x := []]
  {
    var r := Populated(book, symbols);
    var r' := Populated(book, symbols + [x]);
    var expected := if x in r then r else r[x := []];
    assert forall s :: s in r' <==> s in expected;
    assert forall s :: s in r' ==> r'[s] == expected[s];
  }

  /** Fills recorded in two batches set the last price as the combined batch does. */
  lemma LastPriceAppend(lastPrice: map<string, int>, symbol: string, f: seq<Fill>, g: seq<Fill>)
    ensures LastPriceAfter(LastPriceAfter(lastPrice, symbol, f), symbol, g) == LastPriceAfter(lastPrice, symbol, f + g)
  {
    if g != [] {
      assert (f + g)[|f + g| - 1] == g[|g| - 1];
    } else {
      assert f + g == f;
    }
  }

  /** s with the fills f recorded before it. */
  function SweptAfter(f: seq<Fill>, s: Swept): Swept {
    Swept(s.levels, s.orders, s.remaining, f + s.fills, s.consumed)
  }

  lemma SweptAfterTwice(f: seq<Fill>, g: seq<Fill>, s: Swept)
    ensures SweptAfter(f, SweptAfter(g, s)) == SweptAfter(f + g, s)
  {
    assert f + (g + s.fills) == f + g + s.fills;
  }

  /** One trade of attemptTrade's inner loop, as a relation between the state before it and the state after it. */
  predicate HeadTraded(q: seq<Id>, orders: OrderViews, incoming: int,
                       q': seq<Id>, orders': OrderViews, incoming': int, fill: Fill)
    requires q != [] && q[0] in orders
  {
    var v := orders[q[0]];
    var delta := Min(v.shares, incoming);
    fill == Fill(q[0], delta, v.price) && incoming' == incoming - delta
    && if v.shares - delta == 0 then q' == q[1..] && orders' == orders - {q[0]}
       else q' == q && orders' == orders[q[0] := Traded(v, delta)]
  }

  /** One trade advances ConsumeQueue by one fill and keeps the queue indexed and free of repeats. */
  lemma HeadTradedAdvances(q: seq<Id>, orders: OrderViews, incoming: int,
                           q': seq<Id>, orders': OrderViews, incoming': int, fill: Fill, earlier: seq<Fill>)
    requires q != [] && q[0] in orders && HeadTraded(q, orders, incoming, q', orders', incoming', fill)
    requires NoDup(q) && forall k :: 0 <= k < |q| ==> q[k] in orders
    ensures NoDup(q') && forall k :: 0 <= k < |q'| ==> q'[k] in orders'
    ensures |q'| < |q| || incoming' == 0
    ensures incoming' == 0 ==> AfterFills(earlier, ConsumeQueue(q, orders, incoming)) == Consumed(q', orders', 0, earlier + [fill])
    ensures incoming' != 0 ==>
      AfterFills(earlier, ConsumeQueue(q, orders, incoming)) == AfterFills(earlier + [fill], ConsumeQueue(q', orders', incoming'))
  {
    ConsumeStep(q, orders, incoming);
    var v := orders[q[0]];
    var delta := Min(v.shares, incoming);
    if v.shares - delta == 0 {
      forall k | 0 <= k < |q'| ensures q'[k] != q[0] && q'[k] in orders' {
        assert q'[k] == q[k + 1];
      }
      if incoming' != 0 {
        AfterFillsTwice(earlier, [fill], ConsumeQueue(q', orders', incoming'));
      }
    }
  }

  lemma AppendAssoc<T>(a: seq<T>, b: seq<T>, c: seq<T>)
    ensures a + b + c == a + (b + c)
  {
  }

  /** Attempt as the sweep s of the opposite price map, which is empty and untouched when the symbol is missing. */
  lemma AttemptSwept(e: Engine, symbol: string, side: char, limit: int, incoming: int, s: Swept)
    requires var book := BookOf(e, OppositeSide(side));
      if symbol in book then s == Sweep(book[symbol], e.orders, OppositeSide(side), limit, incoming)
      else s == Swept([], e.orders, incoming, [], false)
    ensures var opp := OppositeSide(side);
      Attempt(e, symbol, side, limit, incoming)
        == Attempted(WithBook(e, opp, BookOf(e, opp)[symbol := s.levels]).(orders := s.orders,
                     lastPrice := LastPriceAfter(e.lastPrice, symbol, s.fills)), s.remaining, s.fills, s.consumed)
  {
  }

  /** Erasing a key a map lacks leaves the map as it was. */
  lemma RemoveAbsent<K, V>(m: map<K, V>, k: K)
    requires k !in m
    ensures m - {k} == m
  {
  }

  /** Storing two price maps for one symbol in turn leaves the second. */
  lemma WithBookTwice(e: Engine, side: char, symbol: string, a: PriceMap, b: PriceMap)
    ensures var e' := WithBook(e, side, BookOf(e, side)[symbol := a]);
      WithBook(e', side, BookOf(e', side)[symbol := b]) == WithBook(e, side, BookOf(e, side)[symbol := b])
  {
    var book := BookOf(e, side);
    assert book[symbol := a][symbol := b] == book[symbol := b];
  }

  /** Erasing a key forgets the last value stored under it. */
  lemma UpdateThenRemove<K, V>(m: map<K, V>, k: K, v: V)
    ensures m[k := v] - {k} == m - {k}
  {
  }

  /** The outcome of Cancel once the order is found at position k of its queue, case by case. */
  lemma CancelFound(e: Engine, p: Params, id: Id, k: nat)
    requires OrderId(p) == Success(id) && id in e.orders
    requires var v := e.orders[id];
      var before := GetOrEmpty(BookOf(e, v.side), v.symbol);
      IndexOf(WithLevel(before, v.price)[LowerBound(before, v.price)].queue, id) == Some(k)
    ensures var v := e.orders[id];
      var book := BookOf(e, v.side);
      var before := GetOrEmpty(book, v.symbol);
      var i := LowerBound(before, v.price);
      var pm := WithLevel(before, v.price);
      var q := pm[i].queue;
      var located := WithBook(e, v.side, book[v.symbol := pm]);
      var c := Cancel(e, p);
      match Shares(p)
      case Failure(err) => c == Handled(located, Some(err), [])
      case Success(n) =>
        if v.shares - n <= 0 then
          c == Handled(WithBook(e, v.side, book[v.symbol := pm[i := Level(pm[i].price, q[..k] + q[k + 1..])]])
                         .(orders := e.orders - {id}), None, [])
        else c == Handled(located.(orders := e.orders[id := Traded(v, n)]), None, [])
  {
  }
}
