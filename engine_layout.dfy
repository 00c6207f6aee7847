/**
 * The shape the books and the id index keep between calls: levels sorted by
 * price, every queued id indexed exactly once at the level of its own side,
 * symbol and price, and every indexed order resting in its book.
 */
module EngineLayout {
  import opened Wrappers
  import opened Orders
  import opened PitchMessages
  import opened EngineSpec

  predicate Placed(v: OrderView, side: char, symbol: string, price: int) {
    v.side == side && v.symbol == symbol && v.price == price
  }

  predicate SameLoc(v: OrderView, w: OrderView) {
    v.side == w.side && v.symbol == w.symbol && v.price == w.price
  }

  predicate LevelPlaced(lv: Level, orders: OrderViews, side: char, symbol: string) {
    NoDup(lv.queue) &&
    forall k :: 0 <= k < |lv.queue| ==> lv.queue[k] in orders && Placed(orders[lv.queue[k]], side, symbol, lv.price)
  }

  predicate MapPlaced(pm: PriceMap, orders: OrderViews, side: char, symbol: string) {
    Sorted(pm) && forall j :: 0 <= j < |pm| ==> LevelPlaced(pm[j], orders, side, symbol)
  }

  predicate BookPlaced(book: Book, orders: OrderViews, side: char) {
    forall s :: s in book ==> MapPlaced(book[s], orders, side, s)
  }

  /** id is queued at some level of pm. */
  predicate InMap(pm: PriceMap, id: Id) {
    exists j :: 0 <= j < |pm| && id in pm[j].queue
  }

  /** The indexed order id rests in the book of its side, under its symbol. */
  predicate Rests(e: Engine, id: Id) {
    id in e.orders &&
    var v := e.orders[id];
    (v.side == 'B' || v.side == 'S') && v.symbol in BookOf(e, v.side) && InMap(BookOf(e, v.side)[v.symbol], id)
  }

  predicate Layout(e: Engine) {
    BookPlaced(e.buy, e.orders, 'B') && BookPlaced(e.sell, e.orders, 'S') &&
    forall id :: id in e.orders ==> Rests(e, id)
  }

  // ---------------------------------------------------------------------------
  // Small facts about placed price maps

  /** A queued id carries its map's side and symbol and its level's price. */
  lemma InMapPlaced(pm: PriceMap, orders: OrderViews, side: char, symbol: string, id: Id)
    requires MapPlaced(pm, orders, side, symbol) && InMap(pm, id)
    ensures id in orders && orders[id].side == side && orders[id].symbol == symbol
  {
    var j :| 0 <= j < |pm| && id in pm[j].queue;
    var k :| 0 <= k < |pm[j].queue| && pm[j].queue[k] == id;
  }

  /** Two levels of a placed map share no id. */
  lemma LevelsDisjoint(pm: PriceMap, orders: OrderViews, side: char, symbol: string, i: nat, j: nat, x: Id)
    requires MapPlaced(pm, orders, side, symbol)
    requires i < |pm| && j < |pm| && i != j && x in pm[j].queue
    ensures x !in pm[i].queue
  {
    var k :| 0 <= k < |pm[j].queue| && pm[j].queue[k] == x;
    assert orders[x].price == pm[j].price;
    assert pm[i].price != pm[j].price;
    forall k' | 0 <= k' < |pm[i].queue| ensures pm[i].queue[k'] != x {
      assert orders[pm[i].queue[k']].price == pm[i].price;
    }
  }

  /** A placed map stays placed under an index that keeps the location of every id it queues. */
  lemma MapPlacedFrame(pm: PriceMap, orders: OrderViews, orders': OrderViews, side: char, symbol: string)
    requires MapPlaced(pm, orders, side, symbol)
    requires forall x :: InMap(pm, x) ==> x in orders' && SameLoc(orders'[x], orders[x])
    ensures MapPlaced(pm, orders', side, symbol)
  {
    forall j, k | 0 <= j < |pm| && 0 <= k < |pm[j].queue|
      ensures pm[j].queue[k] in orders' && Placed(orders'[pm[j].queue[k]], side, symbol, pm[j].price)
    {
      assert InMap(pm, pm[j].queue[k]);
    }
  }

  /** Ids queued in a map placed for (side, symbol) are not queued in one placed for another pair. */
  lemma ElsewhereNotInMap(pm: PriceMap, pm2: PriceMap, orders: OrderViews, side: char, symbol: string,
                          side2: char, symbol2: string, x: Id)
    requires MapPlaced(pm, orders, side, symbol) && MapPlaced(pm2, orders, side2, symbol2)
    requires side != side2 || symbol != symbol2
    requires InMap(pm2, x)
    ensures !InMap(pm, x)
  {
    InMapPlaced(pm2, orders, side2, symbol2, x);
    if InMap(pm, x) {
      InMapPlaced(pm, orders, side, symbol, x);
    }
  }

  // ---------------------------------------------------------------------------
  // One queue, one price map

  /** What trading against a queue leaves: a suffix of the queue and the index without the traded-out prefix. */
  lemma ConsumeQueueShape(q: seq<Id>, orders: OrderViews, incoming: int)
    requires forall k :: 0 <= k < |q| ==> q[k] in orders
    requires NoDup(q)
    ensures var c := ConsumeQueue(q, orders, incoming);
      |c.queue| <= |q| && c.queue == q[|q| - |c.queue|..]
      && (forall id :: id in c.orders <==> id in orders && id !in q[..|q| - |c.queue|])
      && (forall id :: id in c.orders ==> SameLoc(c.orders[id], orders[id]))
      && (forall id :: id in orders && id !in q ==> c.orders[id] == orders[id])
      && (c.remaining != 0 ==> c.queue == [])
  {
    ConsumeSuffix(q, orders, incoming);
    var c := ConsumeQueue(q, orders, incoming);
    var n := |q| - |c.queue|;
    forall id ensures id in c.orders <==> id in orders && id !in q[..n] {
      ConsumeIndexAt(q, orders, incoming, id);
    }
    forall id | id in c.orders ensures SameLoc(c.orders[id], orders[id]) {
      ConsumeKeepsLocs(q, orders, incoming, id);
    }
    forall id | id in orders && id !in q ensures c.orders[id] == orders[id] {
      ConsumeKeepsOthers(q, orders, incoming, id);
    }
  }

  /** The queue left is a suffix of q, and empty unless the incoming order was used up. */
  lemma {:induction false} ConsumeSuffix(q: seq<Id>, orders: OrderViews, incoming: int)
    ensures var c := ConsumeQueue(q, orders, incoming);
      |c.queue| <= |q| && c.queue == q[|q| - |c.queue|..] && (c.remaining != 0 ==> c.queue == [])
    decreases |q|
  {
    if q != [] {
      var v := ViewOf(orders, q[0]);
      var delta := Min(v.shares, incoming);
      var left := incoming - delta;
      if v.shares - delta == 0 && left != 0 {
        ConsumeSuffix(q[1..], orders - {q[0]}, left);
        var c' := ConsumeQueue(q[1..], orders - {q[0]}, left);
        assert q[1..][|q| - 1 - |c'.queue|..] == q[|q| - |c'.queue|..];
      } else if v.shares - delta != 0 {
        assert delta == incoming;
      }
    }
  }

  /** The index left, id by id: exactly the traded-out prefix of q is gone. */
  lemma {:induction false} ConsumeIndexAt(q: seq<Id>, orders: OrderViews, incoming: int, id: Id)
    requires forall k :: 0 <= k < |q| ==> q[k] in orders
    requires NoDup(q)
    ensures var c := ConsumeQueue(q, orders, incoming);
      |c.queue| <= |q| && (id in c.orders <==> id in orders && id !in q[..|q| - |c.queue|])
    decreases |q|
  {
    ConsumeSuffix(q, orders, incoming);
    var c := ConsumeQueue(q, orders, incoming);
    if q != [] {
      ConsumeStep(q, orders, incoming);
      var v := ViewOf(orders, q[0]);
      var delta := Min(v.shares, incoming);
      var left := incoming - delta;
      if v.shares - delta == 0 {
        if left == 0 {
          assert q[..1] == [q[0]];
        } else {
          var orders' := orders - {q[0]};
          var q' := q[1..];
          var c' := ConsumeQueue(q', orders', left);
          forall k | 0 <= k < |q'| ensures q'[k] in orders' {
            assert q'[k] == q[k + 1] && q[k + 1] != q[0];
          }
          ConsumeIndexAt(q', orders', left, id);
          var n' := |q'| - |c'.queue|;
          assert q[..n' + 1] == [q[0]] + q'[..n'];
        }
      } else {
        assert q[..0] == [];
      }
    }
  }

  /** An id still indexed after trading against a queue keeps its location. */
  lemma {:induction false} ConsumeKeepsLocs(q: seq<Id>, orders: OrderViews, incoming: int, id: Id)
    requires forall k :: 0 <= k < |q| ==> q[k] in orders
    requires NoDup(q)
    ensures var c := ConsumeQueue(q, orders, incoming);
      id in c.orders ==> id in orders && SameLoc(c.orders[id], orders[id])
    decreases |q|
  {
    if q != [] {
      ConsumeStep(q, orders, incoming);
      var v := ViewOf(orders, q[0]);
      var delta := Min(v.shares, incoming);
      var left := incoming - delta;
      if v.shares - delta == 0 && left != 0 {
        var orders' := orders - {q[0]};
        var q' := q[1..];
        forall k | 0 <= k < |q'| ensures q'[k] in orders' {
          assert q'[k] == q[k + 1] && q[k + 1] != q[0];
        }
        ConsumeKeepsLocs(q', orders', left, id);
      }
    }
  }

  /** An indexed id that q does not hold is untouched by trading against q. */
  lemma {:induction false} ConsumeKeepsOthers(q: seq<Id>, orders: OrderViews, incoming: int, id: Id)
    requires id in orders && id !in q
    ensures var c := ConsumeQueue(q, orders, incoming); id in c.orders && c.orders[id] == orders[id]
    decreases |q|
  {
    if q != [] {
      ConsumeStep(q, orders, incoming);
      var v := ViewOf(orders, q[0]);
      var delta := Min(v.shares, incoming);
      var left := incoming - delta;
      if v.shares - delta == 0 && left != 0 {
        assert id !in q[1..];
        ConsumeKeepsOthers(q[1..], orders - {q[0]}, left, id);
      }
    }
  }

  /** The price map with level i dropped. */
  function EraseLevel(pm: PriceMap, i: nat): PriceMap
    requires i < |pm|
  {
    pm[..i] + pm[i + 1..]
  }

  lemma EraseLevelInMap(pm: PriceMap, i: nat, x: Id)
    requires i < |pm|
    ensures InMap(EraseLevel(pm, i), x) <==> exists j :: 0 <= j < |pm| && j != i && x in pm[j].queue
  {
    var r := EraseLevel(pm, i);
    if InMap(r, x) {
      var j :| 0 <= j < |r| && x in r[j].queue;
      if j < i { assert r[j] == pm[j]; } else { assert r[j] == pm[j + 1]; }
    }
    if exists j :: 0 <= j < |pm| && j != i && x in pm[j].queue {
      var j :| 0 <= j < |pm| && j != i && x in pm[j].queue;
      if j < i { assert r[j] == pm[j]; } else { assert r[j - 1] == pm[j]; }
    }
  }

  /**
   * orders' and pm' are what trading leaves of orders and pm: no id is added,
   * none moves, ids pm does not queue are untouched, and an id of pm still
   * indexed is still queued.
   */
  ghost predicate Shrinks(orders: OrderViews, orders': OrderViews, pm: PriceMap, pm': PriceMap) {
    (forall id :: id in orders' ==> id in orders && SameLoc(orders'[id], orders[id]))
    && (forall id :: id in orders && !InMap(pm, id) ==> id in orders' && orders'[id] == orders[id])
    && (forall id :: id in orders' && InMap(pm, id) ==> InMap(pm', id))
    && (forall id :: InMap(pm', id) ==> InMap(pm, id))
  }

  lemma ShrinksTrans(o1: OrderViews, o2: OrderViews, o3: OrderViews, pm1: PriceMap, pm2: PriceMap, pm3: PriceMap)
    requires Shrinks(o1, o2, pm1, pm2) && Shrinks(o2, o3, pm2, pm3)
    ensures Shrinks(o1, o3, pm1, pm3)
  {
  }

  /**
   * orders' is orders after the first n ids of level i's queue left the index
   * and the others kept their place (shares may differ).
   */
  ghost predicate TrimmedIndex(pm: PriceMap, orders: OrderViews, orders': OrderViews, i: nat, n: nat)
    requires i < |pm| && n <= |pm[i].queue|
  {
    (forall id :: id in orders' <==> id in orders && id !in pm[i].queue[..n])
    && (forall id :: id in orders' ==> SameLoc(orders'[id], orders[id]))
    && (forall id :: id in orders && id !in pm[i].queue ==> orders'[id] == orders[id])
  }

  /** Under a trimmed index, the ids of the levels other than i keep their orders. */
  lemma OtherLevelsUntouched(pm: PriceMap, orders: OrderViews, orders': OrderViews, opp: char, symbol: string,
                             i: nat, n: nat)
    requires MapPlaced(pm, orders, opp, symbol) && i < |pm| && n <= |pm[i].queue|
    requires TrimmedIndex(pm, orders, orders', i, n)
    ensures forall j, x :: 0 <= j < |pm| && j != i && x in pm[j].queue ==> x in orders' && orders'[x] == orders[x]
  {
    forall j, x | 0 <= j < |pm| && j != i && x in pm[j].queue
      ensures x in orders' && orders'[x] == orders[x]
    {
      LevelsDisjoint(pm, orders, opp, symbol, i, j, x);
      var k :| 0 <= k < |pm[j].queue| && pm[j].queue[k] == x;
      assert x !in pm[i].queue[..n];
    }
  }

  /** Keeping what is left of level i's queue in place keeps the map placed. */
  lemma TrimPlaced(pm: PriceMap, orders: OrderViews, orders': OrderViews, opp: char, symbol: string, i: nat, n: nat)
    requires MapPlaced(pm, orders, opp, symbol) && i < |pm| && n <= |pm[i].queue|
    requires TrimmedIndex(pm, orders, orders', i, n)
    ensures MapPlaced(pm[i := Level(pm[i].price, pm[i].queue[n..])], orders', opp, symbol)
  {
    var q := pm[i].queue;
    OtherLevelsUntouched(pm, orders, orders', opp, symbol, i, n);
    var lv := Level(pm[i].price, q[n..]);
    var levels := pm[i := lv];
    assert LevelPlaced(lv, orders', opp, symbol) by {
      forall k | 0 <= k < |lv.queue|
        ensures lv.queue[k] in orders' && Placed(orders'[lv.queue[k]], opp, symbol, lv.price)
      {
        assert lv.queue[k] == q[n + k];
        assert q[n + k] !in q[..n];
      }
    }
    forall j | 0 <= j < |levels| && j != i ensures LevelPlaced(levels[j], orders', opp, symbol) {
      forall k | 0 <= k < |levels[j].queue|
        ensures levels[j].queue[k] in orders' && Placed(orders'[levels[j].queue[k]], opp, symbol, levels[j].price)
      {
        assert levels[j].queue[k] in pm[j].queue;
      }
    }
    assert Sorted(levels) by {
      forall a, b | 0 <= a < b < |levels| ensures levels[a].price < levels[b].price {
        assert levels[a].price == pm[a].price && levels[b].price == pm[b].price;
      }
    }
  }

  /** An id of level i's queue beyond its first n entries is still queued once those are dropped. */
  lemma TrimKeepsQueued(pm: PriceMap, i: nat, n: nat, id: Id)
    requires i < |pm| && n <= |pm[i].queue|
    requires InMap(pm, id) && id !in pm[i].queue[..n]
    ensures InMap(pm[i := Level(pm[i].price, pm[i].queue[n..])], id)
  {
    var q := pm[i].queue;
    var levels := pm[i := Level(pm[i].price, q[n..])];
    var j :| 0 <= j < |pm| && id in pm[j].queue;
    if j == i {
      forall k' | 0 <= k' < n ensures q[k'] != id {
        assert q[..n][k'] == q[k'];
      }
      var k :| 0 <= k < |q| && q[k] == id;
      assert q[n..][k - n] == id;
      assert id in levels[i].queue;
    } else {
      assert id in levels[j].queue;
    }
  }

  /** Dropping entries queues no new id. */
  lemma TrimQueuedFrom(pm: PriceMap, i: nat, n: nat, id: Id)
    requires i < |pm| && n <= |pm[i].queue|
    requires InMap(pm[i := Level(pm[i].price, pm[i].queue[n..])], id)
    ensures InMap(pm, id)
  {
    var q := pm[i].queue;
    var levels := pm[i := Level(pm[i].price, q[n..])];
    var j :| 0 <= j < |levels| && id in levels[j].queue;
    if j == i {
      var k :| 0 <= k < |q[n..]| && q[n..][k] == id;
      assert q[n + k] == id;
      assert id in pm[i].queue;
    } else {
      assert id in pm[j].queue;
    }
  }

  /** Keeping what is left of level i's queue in place shrinks the map. */
  lemma TrimShrinks(pm: PriceMap, orders: OrderViews, orders': OrderViews, i: nat, n: nat)
    requires i < |pm| && n <= |pm[i].queue|
    requires TrimmedIndex(pm, orders, orders', i, n)
    ensures Shrinks(orders, orders', pm, pm[i := Level(pm[i].price, pm[i].queue[n..])])
  {
    var q := pm[i].queue;
    var levels := pm[i := Level(pm[i].price, q[n..])];
    forall id | id in q ensures InMap(pm, id) {
      assert id in pm[i].queue;
    }
    forall id | id in orders' && InMap(pm, id) ensures InMap(levels, id) {
      TrimKeepsQueued(pm, i, n, id);
    }
    forall id | InMap(levels, id) ensures InMap(pm, id) {
      TrimQueuedFrom(pm, i, n, id);
    }
  }

  /** Erasing level i once its whole queue left the index. */
  lemma EraseShape(pm: PriceMap, orders: OrderViews, orders': OrderViews, opp: char, symbol: string, i: nat)
    requires MapPlaced(pm, orders, opp, symbol) && i < |pm|
    requires TrimmedIndex(pm, orders, orders', i, |pm[i].queue|)
    ensures MapPlaced(EraseLevel(pm, i), orders', opp, symbol) && Shrinks(orders, orders', pm, EraseLevel(pm, i))
  {
    var q := pm[i].queue;
    assert q[..|q|] == q;
    OtherLevelsUntouched(pm, orders, orders', opp, symbol, i, |q|);
    var pm' := EraseLevel(pm, i);
    forall j | 0 <= j < |pm'| ensures LevelPlaced(pm'[j], orders', opp, symbol) {
      var jj := if j < i then j else j + 1;
      assert pm'[j] == pm[jj];
      forall k | 0 <= k < |pm'[j].queue|
        ensures pm'[j].queue[k] in orders' && Placed(orders'[pm'[j].queue[k]], opp, symbol, pm'[j].price)
      {
        assert pm'[j].queue[k] in pm[jj].queue;
      }
    }
    assert Sorted(pm') by {
      forall a, b | 0 <= a < b < |pm'| ensures pm'[a].price < pm'[b].price {
        var aa := if a < i then a else a + 1;
        var bb := if b < i then b else b + 1;
        assert pm'[a] == pm[aa] && pm'[b] == pm[bb];
      }
    }
    forall id | id in orders' && InMap(pm, id) ensures InMap(pm', id) {
      var j :| 0 <= j < |pm| && id in pm[j].queue;
      assert id !in q;
      EraseLevelInMap(pm, i, id);
    }
    forall id | InMap(pm', id) ensures InMap(pm, id) {
      EraseLevelInMap(pm, i, id);
    }
  }

  /** Consuming level i leaves a trimmed index. */
  lemma ConsumeTrims(pm: PriceMap, orders: OrderViews, opp: char, symbol: string, i: nat, incoming: int)
    requires MapPlaced(pm, orders, opp, symbol) && i < |pm|
    ensures var c := ConsumeQueue(pm[i].queue, orders, incoming);
      var n := |pm[i].queue| - |c.queue|;
      0 <= n <= |pm[i].queue| && c.queue == pm[i].queue[n..] && TrimmedIndex(pm, orders, c.orders, i, n)
      && (c.remaining != 0 ==> n == |pm[i].queue|)
  {
    ConsumeQueueShape(pm[i].queue, orders, incoming);
  }

  /** What a sweep does to the index and the price map, as far as the layout is concerned. */
  lemma {:induction false} SweepShape(pm: PriceMap, orders: OrderViews, opp: char, limit: int, incoming: int,
                                      symbol: string)
    requires MapPlaced(pm, orders, opp, symbol)
    ensures var s := Sweep(pm, orders, opp, limit, incoming);
      MapPlaced(s.levels, s.orders, opp, symbol) && Shrinks(orders, s.orders, pm, s.levels)
    decreases |pm|
  {
    match MatchOrder(pm, opp, limit)
    case None =>
    case Some(i) =>
      var c := ConsumeQueue(pm[i].queue, orders, incoming);
      ConsumeTrims(pm, orders, opp, symbol, i, incoming);
      var n := |pm[i].queue| - |c.queue|;
      if c.remaining == 0 {
        TrimPlaced(pm, orders, c.orders, opp, symbol, i, n);
        TrimShrinks(pm, orders, c.orders, i, n);
      } else {
        EraseShape(pm, orders, c.orders, opp, symbol, i);
        var pm' := EraseLevel(pm, i);
        SweepShape(pm', c.orders, opp, limit, c.remaining, symbol);
        var rest := Sweep(pm', c.orders, opp, limit, c.remaining);
        ShrinksTrans(orders, c.orders, rest.orders, pm, pm', rest.levels);
      }
  }

  // ---------------------------------------------------------------------------
  // Whole engine

  /** Replacing one price map by a placed one over a shrunk index keeps the layout. */
  lemma ReplaceMapKeepsLayout(e: Engine, side: char, symbol: string, pm': PriceMap, orders': OrderViews)
    requires Layout(e) && (side == 'B' || side == 'S') && symbol in BookOf(e, side)
    requires MapPlaced(pm', orders', side, symbol) && Shrinks(e.orders, orders', BookOf(e, side)[symbol], pm')
    ensures Layout(WithBook(e, side, BookOf(e, side)[symbol := pm']).(orders := orders'))
  {
    var book := BookOf(e, side);
    var pm := book[symbol];
    var e' := WithBook(e, side, book[symbol := pm']).(orders := orders');
    ReplaceMapKeepsBooks(e, side, symbol, pm', orders');
    forall id | id in orders' ensures Rests(e', id) {
      assert Rests(e, id);
      var v := e.orders[id];
      if InMap(pm, id) {
        InMapPlaced(pm, e.orders, side, symbol, id);
      } else {
        assert v.side != side || v.symbol != symbol;
        assert BookOf(e', v.side)[v.symbol] == BookOf(e, v.side)[v.symbol];
      }
    }
  }

  /** The books half of ReplaceMapKeepsLayout: every price map stays placed over the shrunk index. */
  lemma ReplaceMapKeepsBooks(e: Engine, side: char, symbol: string, pm': PriceMap, orders': OrderViews)
    requires Layout(e) && (side == 'B' || side == 'S') && symbol in BookOf(e, side)
    requires MapPlaced(pm', orders', side, symbol) && Shrinks(e.orders, orders', BookOf(e, side)[symbol], pm')
    ensures var e' := WithBook(e, side, BookOf(e, side)[symbol := pm']).(orders := orders');
      BookPlaced(e'.buy, orders', 'B') && BookPlaced(e'.sell, orders', 'S')
  {
    var book := BookOf(e, side);
    var pm := book[symbol];
    var e' := WithBook(e, side, book[symbol := pm']).(orders := orders');
    forall side2, sym2 | (side2 == 'B' || side2 == 'S') && sym2 in BookOf(e, side2) && (side2 != side || sym2 != symbol)
      ensures MapPlaced(BookOf(e, side2)[sym2], orders', side2, sym2)
    {
      var pm2 := BookOf(e, side2)[sym2];
      assert MapPlaced(pm2, e.orders, side2, sym2);
      forall x | InMap(pm2, x) ensures x in orders' && SameLoc(orders'[x], e.orders[x]) {
        ElsewhereNotInMap(pm, pm2, e.orders, side, symbol, side2, sym2, x);
        InMapPlaced(pm2, e.orders, side2, sym2, x);
      }
      MapPlacedFrame(pm2, e.orders, orders', side2, sym2);
    }
    assert BookPlaced(e'.buy, orders', 'B') by {
      forall s | s in e'.buy ensures MapPlaced(e'.buy[s], orders', 'B', s) {
        if side == 'B' && s == symbol { } else { assert e'.buy[s] == BookOf(e, 'B')[s]; }
      }
    }
    assert BookPlaced(e'.sell, orders', 'S') by {
      forall s | s in e'.sell ensures MapPlaced(e'.sell[s], orders', 'S', s) {
        if side == 'S' && s == symbol { } else { assert e'.sell[s] == BookOf(e, 'S')[s]; }
      }
    }
  }

  /** attemptTrade keeps the layout and indexes no new id. */
  lemma AttemptKeepsLayout(e: Engine, symbol: string, side: char, limit: int, incoming: int)
    requires Layout(e)
    ensures var t := Attempt(e, symbol, side, limit, incoming);
      Layout(t.engine) && forall id :: id in t.engine.orders ==> id in e.orders
  {
    var opp := OppositeSide(side);
    var book := BookOf(e, opp);
    var t := Attempt(e, symbol, side, limit, incoming);
    if symbol !in book {
      assert t.engine == WithBook(e, opp, book[symbol := []]);
      EmptyMapKeepsLayout(e, opp, symbol);
    } else {
      var s := Sweep(book[symbol], e.orders, opp, limit, incoming);
      SweepShape(book[symbol], e.orders, opp, limit, incoming, symbol);
      ReplaceMapKeepsLayout(e, opp, symbol, s.levels, s.orders);
      var e' := WithBook(e, opp, book[symbol := s.levels]).(orders := s.orders);
      assert t.engine == e'.(lastPrice := LastPriceAfter(e.lastPrice, symbol, s.fills));
      LastPriceKeepsLayout(e', LastPriceAfter(e.lastPrice, symbol, s.fills));
    }
  }

  /** The layout does not depend on the last prices. */
  lemma LastPriceKeepsLayout(e: Engine, lastPrice: map<string, int>)
    requires Layout(e)
    ensures Layout(e.(lastPrice := lastPrice))
  {
    var e' := e.(lastPrice := lastPrice);
    forall id | id in e'.orders ensures Rests(e', id) {
      assert Rests(e, id);
      assert BookOf(e', e.orders[id].side) == BookOf(e, e.orders[id].side);
    }
  }

  /** Giving a symbol that a book lacks an empty price map keeps the layout. */
  lemma EmptyMapKeepsLayout(e: Engine, side: char, symbol: string)
    requires Layout(e) && (side == 'B' || side == 'S') && symbol !in BookOf(e, side)
    ensures Layout(WithBook(e, side, BookOf(e, side)[symbol := []]))
  {
    var e' := WithBook(e, side, BookOf(e, side)[symbol := []]);
    assert BookPlaced(BookOf(e', side), e.orders, side);
    forall id | id in e.orders ensures Rests(e', id) {
      assert Rests(e, id);
      var v := e.orders[id];
      assert BookOf(e', v.side)[v.symbol] == BookOf(e, v.side)[v.symbol];
    }
  }

  /** Where no level has the price, the push inserts a one-order level at the lower bound. */
  lemma PushAtNewLevel(pm: PriceMap, price: int, id: Id)
    requires var i := LowerBound(pm, price); !(i < |pm| && pm[i].price == price)
    ensures var i := LowerBound(pm, price); PushAt(pm, price, id) == pm[..i] + [Level(price, [id])] + pm[i..]
  {
    var i := LowerBound(pm, price);
    var w := WithLevel(pm, price);
    assert w == pm[..i] + [Level(price, [])] + pm[i..];
    assert w[i].queue + [id] == [id];
    var r := PushAt(pm, price, id);
    var t := pm[..i] + [Level(price, [id])] + pm[i..];
    assert |r| == |t|;
    forall k | 0 <= k < |r| ensures r[k] == t[k] {
      if k < i { assert r[k] == w[k] == pm[k]; }
      else if k > i { assert r[k] == w[k] == pm[k - 1]; }
    }
  }

  /** Appending a new id to the existing level at its price keeps the map placed. */
  lemma PushExistingPlaced(pm: PriceMap, orders: OrderViews, side: char, symbol: string, price: int, id: Id)
    requires MapPlaced(pm, orders, side, symbol) && id in orders && Placed(orders[id], side, symbol, price)
    requires !InMap(pm, id)
    requires var i := LowerBound(pm, price); i < |pm| && pm[i].price == price
    ensures MapPlaced(PushAt(pm, price, id), orders, side, symbol)
  {
    var i := LowerBound(pm, price);
    var r := PushAt(pm, price, id);
    assert r == pm[i := Level(price, pm[i].queue + [id])];
    forall k | 0 <= k < |pm[i].queue| ensures pm[i].queue[k] != id {
      assert InMap(pm, pm[i].queue[k]);
    }
    assert LevelPlaced(r[i], orders, side, symbol);
    forall j | 0 <= j < |r| ensures LevelPlaced(r[j], orders, side, symbol) {
      if j != i { assert r[j] == pm[j]; }
    }
    assert Sorted(r) by {
      forall a, b | 0 <= a < b < |r| ensures r[a].price < r[b].price {
        assert r[a].price == pm[a].price && r[b].price == pm[b].price;
      }
    }
  }

  /** Inserting a level between the lower and the higher prices keeps the map sorted. */
  lemma InsertSorted(pm: PriceMap, i: nat, lv: Level)
    requires Sorted(pm) && i <= |pm|
    requires forall k :: 0 <= k < i ==> pm[k].price < lv.price
    requires i < |pm| ==> lv.price < pm[i].price
    ensures Sorted(pm[..i] + [lv] + pm[i..])
  {
    var r := pm[..i] + [lv] + pm[i..];
    forall a, b | 0 <= a < b < |r| ensures r[a].price < r[b].price {
      if b < i {
        assert r[a] == pm[a] && r[b] == pm[b];
      } else if b == i {
        assert r[a] == pm[a];
      } else if a == i {
        assert r[b] == pm[b - 1];
      } else if a < i {
        assert r[a] == pm[a] && r[b] == pm[b - 1];
      } else {
        assert r[a] == pm[a - 1] && r[b] == pm[b - 1];
      }
    }
  }

  /** Inserting a one-order level where its price has none keeps the map placed. */
  lemma PushNewPlaced(pm: PriceMap, orders: OrderViews, side: char, symbol: string, price: int, id: Id)
    requires MapPlaced(pm, orders, side, symbol) && id in orders && Placed(orders[id], side, symbol, price)
    requires var i := LowerBound(pm, price); !(i < |pm| && pm[i].price == price)
    ensures MapPlaced(PushAt(pm, price, id), orders, side, symbol)
  {
    var i := LowerBound(pm, price);
    var lv := Level(price, [id]);
    PushAtNewLevel(pm, price, id);
    InsertSorted(pm, i, lv);
    var r := pm[..i] + [lv] + pm[i..];
    assert LevelPlaced(lv, orders, side, symbol);
    forall j | 0 <= j < |r| ensures LevelPlaced(r[j], orders, side, symbol) {
      if j < i { assert r[j] == pm[j]; } else if j > i { assert r[j] == pm[j - 1]; }
    }
  }

  /** Queueing a new id at the tail of its level keeps the map placed. */
  lemma PushAtPlaced(pm: PriceMap, orders: OrderViews, side: char, symbol: string, price: int, id: Id, v: OrderView)
    requires MapPlaced(pm, orders, side, symbol) && id !in orders && Placed(v, side, symbol, price)
    ensures MapPlaced(PushAt(pm, price, id), orders[id := v], side, symbol)
  {
    var orders' := orders[id := v];
    forall x | InMap(pm, x) ensures x in orders' && SameLoc(orders'[x], orders[x]) {
      InMapPlaced(pm, orders, side, symbol, x);
    }
    MapPlacedFrame(pm, orders, orders', side, symbol);
    if InMap(pm, id) {
      InMapPlaced(pm, orders, side, symbol, id);
    }
    var i := LowerBound(pm, price);
    if i < |pm| && pm[i].price == price {
      PushExistingPlaced(pm, orders', side, symbol, price, id);
    } else {
      PushNewPlaced(pm, orders', side, symbol, price, id);
    }
  }

  /** After the push the new id is queued, and so is every id queued before; no other id appears. */
  lemma PushAtInMap(pm: PriceMap, price: int, id: Id)
    ensures InMap(PushAt(pm, price, id), id)
    ensures forall x :: InMap(pm, x) ==> InMap(PushAt(pm, price, id), x)
    ensures forall x :: InMap(PushAt(pm, price, id), x) ==> x == id || InMap(pm, x)
  {
    var i := LowerBound(pm, price);
    if i < |pm| && pm[i].price == price {
      PushExistingInMap(pm, price, id);
    } else {
      PushNewInMap(pm, price, id);
    }
  }

  /** PushAtInMap where the price already has a level. */
  lemma PushExistingInMap(pm: PriceMap, price: int, id: Id)
    requires var i := LowerBound(pm, price); i < |pm| && pm[i].price == price
    ensures InMap(PushAt(pm, price, id), id)
    ensures forall x :: InMap(pm, x) ==> InMap(PushAt(pm, price, id), x)
    ensures forall x :: InMap(PushAt(pm, price, id), x) ==> x == id || InMap(pm, x)
  {
    var i := LowerBound(pm, price);
    var r := PushAt(pm, price, id);
    assert r == pm[i := Level(price, pm[i].queue + [id])];
    assert id in r[i].queue;
    forall x | InMap(pm, x) ensures InMap(r, x) {
      var j :| 0 <= j < |pm| && x in pm[j].queue;
      assert x in r[j].queue;
    }
    forall x | InMap(r, x) ensures x == id || InMap(pm, x) {
      var j :| 0 <= j < |r| && x in r[j].queue;
      if j != i { assert x in pm[j].queue; }
      else if x != id { assert x in pm[i].queue; }
    }
  }

  /** PushAtInMap where the price gets a new level. */
  lemma PushNewInMap(pm: PriceMap, price: int, id: Id)
    requires var i := LowerBound(pm, price); !(i < |pm| && pm[i].price == price)
    ensures InMap(PushAt(pm, price, id), id)
    ensures forall x :: InMap(pm, x) ==> InMap(PushAt(pm, price, id), x)
    ensures forall x :: InMap(PushAt(pm, price, id), x) ==> x == id || InMap(pm, x)
  {
    PushAtNewLevel(pm, price, id);
    InsertInMap(pm, LowerBound(pm, price), Level(price, [id]));
  }

  /** A level inserted at position i brings its own queue and keeps every other one. */
  lemma InsertInMap(pm: PriceMap, i: nat, lv: Level)
    requires i <= |pm|
    ensures forall x :: x in lv.queue ==> InMap(pm[..i] + [lv] + pm[i..], x)
    ensures forall x :: InMap(pm, x) ==> InMap(pm[..i] + [lv] + pm[i..], x)
    ensures forall x :: InMap(pm[..i] + [lv] + pm[i..], x) ==> x in lv.queue || InMap(pm, x)
  {
    var r := pm[..i] + [lv] + pm[i..];
    assert r[i] == lv;
    forall k | 0 <= k < i ensures r[k] == pm[k] { }
    forall k | i < k < |r| ensures r[k] == pm[k - 1] { }
    forall x | InMap(pm, x) ensures InMap(r, x) {
      var j :| 0 <= j < |pm| && x in pm[j].queue;
      if j < i { assert x in r[j].queue; } else { assert x in r[j + 1].queue; }
    }
    forall x | InMap(r, x) ensures x in lv.queue || InMap(pm, x) {
      var j :| 0 <= j < |r| && x in r[j].queue;
      if j < i { assert x in pm[j].queue; } else if j > i { assert x in pm[j - 1].queue; }
    }
  }

  /** Indexing a new order and queueing it at its level keeps the layout. */
  lemma PushKeepsLayout(e: Engine, side: char, symbol: string, price: int, id: Id, v: OrderView)
    requires Layout(e) && (side == 'B' || side == 'S') && id !in e.orders && Placed(v, side, symbol, price)
    ensures var book := BookOf(e, side);
      Layout(WithBook(e, side, book[symbol := PushAt(GetOrEmpty(book, symbol), price, id)]).(orders := e.orders[id := v]))
  {
    var book := BookOf(e, side);
    var pm := GetOrEmpty(book, symbol);
    var pm' := PushAt(pm, price, id);
    var orders' := e.orders[id := v];
    var e' := WithBook(e, side, book[symbol := pm']).(orders := orders');
    assert MapPlaced(pm, e.orders, side, symbol);
    PushAtPlaced(pm, e.orders, side, symbol, price, id, v);
    PushAtInMap(pm, price, id);
    IndexedKeepsBook(e.buy, e.orders, id, v, 'B');
    IndexedKeepsBook(e.sell, e.orders, id, v, 'S');
    if side == 'B' {
      UpdatedBookPlaced(e.buy, orders', 'B', symbol, pm');
    } else {
      UpdatedBookPlaced(e.sell, orders', 'S', symbol, pm');
    }
    forall x | x in orders' ensures Rests(e', x) {
      if x != id {
        assert Rests(e, x);
        var w := e.orders[x];
        if w.side == side && w.symbol == symbol {
          assert InMap(pm, x);
        } else {
          assert BookOf(e', w.side)[w.symbol] == BookOf(e, w.side)[w.symbol];
        }
      }
    }
  }

  /** Indexing an id no book holds keeps a placed book placed. */
  lemma IndexedKeepsBook(book: Book, orders: OrderViews, id: Id, v: OrderView, side: char)
    requires BookPlaced(book, orders, side) && id !in orders
    ensures BookPlaced(book, orders[id := v], side)
  {
    forall s | s in book ensures MapPlaced(book[s], orders[id := v], side, s) {
      forall x | InMap(book[s], x) ensures x in orders[id := v] && SameLoc(orders[id := v][x], orders[x]) {
        InMapPlaced(book[s], orders, side, s, x);
      }
      MapPlacedFrame(book[s], orders, orders[id := v], side, s);
    }
  }

  /** Replacing one symbol's map by a placed one keeps a book placed. */
  lemma UpdatedBookPlaced(book: Book, orders: OrderViews, side: char, symbol: string, pm: PriceMap)
    requires BookPlaced(book, orders, side) && MapPlaced(pm, orders, side, symbol)
    ensures BookPlaced(book[symbol := pm], orders, side)
  {
  }

  /** Adds need ids the index does not hold yet (the code never checks). */
  predicate FreshId(orders: OrderViews, p: Params) {
    ParseAdd(p).Success? ==> ParseAdd(p).value.id !in orders
  }

  /** addOrder keeps the layout. */
  lemma AddKeepsLayout(e: Engine, p: Params)
    requires Layout(e) && FreshId(e.orders, p)
    ensures Layout(Add(e, p).engine)
  {
    match ParseAdd(p)
    case Failure(_) =>
    case Success(a) =>
      AddParsedKeepsLayout(e, a);
  }

  /** addOrder keeps the layout once its fields are read. */
  lemma AddParsedKeepsLayout(e: Engine, a: AddRequest)
    requires Layout(e) && a.id !in e.orders
    ensures Layout(AddParsed(e, a).engine)
  {
    if a.symbol in e.buy {
      var t := Attempt(e, a.symbol, a.side, a.price, a.shares);
      AttemptKeepsLayout(e, a.symbol, a.side, a.price, a.shares);
      if t.consumed {
        assert AddParsed(e, a).engine == t.engine.(orders := t.engine.orders - {a.id});
        assert t.engine.orders - {a.id} == t.engine.orders;
      } else if a.side == 'B' || a.side == 'S' {
        PushKeepsLayout(t.engine, a.side, a.symbol, a.price, a.id, OrderView(a.symbol, t.remaining, a.price, a.side));
      }
    }
  }

  /** In a sorted map the lower bound of a level's own price is that level. */
  lemma {:induction false} LowerBoundAt(pm: PriceMap, j: nat)
    requires Sorted(pm) && j < |pm|
    ensures LowerBound(pm, pm[j].price) == j
    decreases j
  {
    if j > 0 {
      assert pm[0].price < pm[j].price;
      assert pm[1..][j - 1] == pm[j];
      LowerBoundAt(pm[1..], j - 1);
    }
  }

  /** Under the layout, cancelOrder's lookup of an indexed order finds its level without inserting anything, and finds the order in it. */
  lemma CancelFinds(e: Engine, id: Id)
    requires Layout(e) && id in e.orders
    ensures var v := e.orders[id];
      var before := GetOrEmpty(BookOf(e, v.side), v.symbol);
      var i := LowerBound(before, v.price);
      (v.side == 'B' || v.side == 'S') && v.symbol in BookOf(e, v.side)
      && i < |before| && before[i].price == v.price && id in before[i].queue
      && WithLevel(before, v.price) == before
  {
    assert Rests(e, id);
    var v := e.orders[id];
    var before := BookOf(e, v.side)[v.symbol];
    assert MapPlaced(before, e.orders, v.side, v.symbol);
    var j :| 0 <= j < |before| && id in before[j].queue;
    var k :| 0 <= k < |before[j].queue| && before[j].queue[k] == id;
    LowerBoundAt(before, j);
  }

  /** Taking entry k out of level i's queue, and its id out of the index, keeps the map placed and shrinks it. */
  lemma RemoveAtShape(pm: PriceMap, orders: OrderViews, side: char, symbol: string, i: nat, k: nat)
    requires MapPlaced(pm, orders, side, symbol) && i < |pm| && k < |pm[i].queue|
    ensures var q := pm[i].queue;
      var pm' := pm[i := Level(pm[i].price, q[..k] + q[k + 1..])];
      MapPlaced(pm', orders - {q[k]}, side, symbol) && Shrinks(orders, orders - {q[k]}, pm, pm')
  {
    RemoveAtPlaced(pm, orders, side, symbol, i, k);
    RemoveAtShrinks(pm, orders, i, k);
  }

  /** The placed half of RemoveAtShape. */
  lemma RemoveAtPlaced(pm: PriceMap, orders: OrderViews, side: char, symbol: string, i: nat, k: nat)
    requires MapPlaced(pm, orders, side, symbol) && i < |pm| && k < |pm[i].queue|
    ensures var q := pm[i].queue;
      MapPlaced(pm[i := Level(pm[i].price, q[..k] + q[k + 1..])], orders - {q[k]}, side, symbol)
  {
    var q := pm[i].queue;
    var id := q[k];
    var q' := q[..k] + q[k + 1..];
    var pm' := pm[i := Level(pm[i].price, q')];
    var orders' := orders - {id};
    assert forall m :: 0 <= m < |q'| ==> q'[m] == (if m < k then q[m] else q[m + 1]);
    forall j, x | 0 <= j < |pm| && x in pm[j].queue && x != id ensures x in orders' && SameLoc(orders'[x], orders[x]) {
      var m :| 0 <= m < |pm[j].queue| && pm[j].queue[m] == x;
    }
    forall j, x | 0 <= j < |pm| && j != i && x in pm[j].queue ensures x != id {
      LevelsDisjoint(pm, orders, side, symbol, j, i, id);
    }
    forall j | 0 <= j < |pm'| ensures LevelPlaced(pm'[j], orders', side, symbol) {
      forall m | 0 <= m < |pm'[j].queue|
        ensures pm'[j].queue[m] in orders' && Placed(orders'[pm'[j].queue[m]], side, symbol, pm'[j].price)
      {
        if j == i {
          assert pm'[j].queue[m] in pm[i].queue;
        } else {
          assert pm'[j].queue[m] in pm[j].queue;
        }
      }
    }
    assert Sorted(pm') by {
      forall a, b | 0 <= a < b < |pm'| ensures pm'[a].price < pm'[b].price {
        assert pm'[a].price == pm[a].price && pm'[b].price == pm[b].price;
      }
    }
  }

  /** The shrinks half of RemoveAtShape: only the removed id leaves, and every other queued id stays queued. */
  lemma RemoveAtShrinks(pm: PriceMap, orders: OrderViews, i: nat, k: nat)
    requires i < |pm| && k < |pm[i].queue|
    ensures var q := pm[i].queue;
      Shrinks(orders, orders - {q[k]}, pm, pm[i := Level(pm[i].price, q[..k] + q[k + 1..])])
  {
    var q := pm[i].queue;
    var id := q[k];
    var q' := q[..k] + q[k + 1..];
    var pm' := pm[i := Level(pm[i].price, q')];
    var orders' := orders - {id};
    assert forall m :: 0 <= m < |q'| ==> q'[m] == (if m < k then q[m] else q[m + 1]);
    forall x | x in orders' && InMap(pm, x) ensures InMap(pm', x) {
      var j :| 0 <= j < |pm| && x in pm[j].queue;
      if j == i {
        var m :| 0 <= m < |q| && q[m] == x;
        if m < k { assert q'[m] == x; } else { assert m != k; assert q'[m - 1] == x; }
        assert x in pm'[i].queue;
      } else {
        assert x in pm'[j].queue;
      }
    }
    forall x | InMap(pm', x) ensures InMap(pm, x) {
      var j :| 0 <= j < |pm'| && x in pm'[j].queue;
      if j == i {
        assert x in q;
        assert x in pm[i].queue;
      } else {
        assert x in pm[j].queue;
      }
    }
    forall x | x in q ensures InMap(pm, x) {
      assert x in pm[i].queue;
    }
  }

  /** cancelOrder keeps the layout. */
  lemma CancelKeepsLayout(e: Engine, p: Params)
    requires Layout(e)
    ensures Layout(Cancel(e, p).engine)
  {
    match OrderId(p)
    case Failure(_) =>
    case Success(id) =>
      if id in e.orders {
        var v := e.orders[id];
        var book := BookOf(e, v.side);
        var before := GetOrEmpty(book, v.symbol);
        var i := LowerBound(before, v.price);
        CancelFinds(e, id);
        assert book[v.symbol := before] == book;
        assert WithBook(e, v.side, book) == e;
        var q := before[i].queue;
        var k := IndexOf(q, id).value;
        CancelFound(e, p, id, k);
        match Shares(p)
        case Failure(_) =>
          assert Cancel(e, p).engine == e;
        case Success(n) =>
          if v.shares - n <= 0 {
            var pm' := before[i := Level(before[i].price, q[..k] + q[k + 1..])];
            assert Cancel(e, p).engine == WithBook(e, v.side, book[v.symbol := pm']).(orders := e.orders - {id});
            RemoveAtShape(before, e.orders, v.side, v.symbol, i, k);
            ReplaceMapKeepsLayout(e, v.side, v.symbol, pm', e.orders - {id});
          } else {
            assert Cancel(e, p).engine == e.(orders := e.orders[id := Traded(v, n)]);
            TradedKeepsLayout(e, id, n);
          }
      }
  }

  /** Taking shares off an indexed order, which keeps it indexed, keeps the layout. */
  lemma TradedKeepsLayout(e: Engine, id: Id, n: int)
    requires Layout(e) && id in e.orders
    ensures Layout(e.(orders := e.orders[id := Traded(e.orders[id], n)]))
  {
    var orders' := e.orders[id := Traded(e.orders[id], n)];
    assert forall x :: x in e.orders ==> x in orders' && SameLoc(orders'[x], e.orders[x]);
    SameLocsKeepLayout(e, orders');
  }

  /** An index with the same ids at the same locations keeps the layout. */
  lemma SameLocsKeepLayout(e: Engine, orders': OrderViews)
    requires Layout(e) && orders'.Keys == e.orders.Keys
    requires forall x :: x in e.orders ==> SameLoc(orders'[x], e.orders[x])
    ensures Layout(e.(orders := orders'))
  {
    var e' := e.(orders := orders');
    forall side, s | (side == 'B' || side == 'S') && s in BookOf(e, side)
      ensures MapPlaced(BookOf(e, side)[s], orders', side, s)
    {
      var pm := BookOf(e, side)[s];
      forall x | InMap(pm, x) ensures x in orders' && SameLoc(orders'[x], e.orders[x]) {
        InMapPlaced(pm, e.orders, side, s, x);
      }
      MapPlacedFrame(pm, e.orders, orders', side, s);
    }
    assert BookPlaced(e'.buy, orders', 'B') by {
      forall s | s in e'.buy ensures MapPlaced(e'.buy[s], orders', 'B', s) {
        assert e'.buy[s] == BookOf(e, 'B')[s];
      }
    }
    assert BookPlaced(e'.sell, orders', 'S') by {
      forall s | s in e'.sell ensures MapPlaced(e'.sell[s], orders', 'S', s) {
        assert e'.sell[s] == BookOf(e, 'S')[s];
      }
    }
    forall id | id in orders' ensures Rests(e', id) {
      assert Rests(e, id);
    }
  }

  /** populateSymbols keeps the layout. */
  lemma PopulateKeepsLayout(e: Engine, symbols: seq<string>)
    requires Layout(e)
    ensures Layout(e.(buy := Populated(e.buy, symbols), sell := Populated(e.sell, symbols)))
  {
    var e' := e.(buy := Populated(e.buy, symbols), sell := Populated(e.sell, symbols));
    PopulatedPlaced(e.buy, e.orders, 'B', symbols);
    PopulatedPlaced(e.sell, e.orders, 'S', symbols);
    forall id | id in e.orders ensures Rests(e', id) {
      assert Rests(e, id);
      var v := e.orders[id];
      assert BookOf(e', v.side)[v.symbol] == BookOf(e, v.side)[v.symbol];
    }
  }

  /** Populating one book with empty price maps keeps it placed. */
  lemma PopulatedPlaced(book: Book, orders: OrderViews, side: char, symbols: seq<string>)
    requires BookPlaced(book, orders, side)
    ensures BookPlaced(Populated(book, symbols), orders, side)
  {
  }

  /** Adds need a fresh id; nothing else is asked of a message. */
  predicate IngestPre(e: Engine, p: Params) {
    MessageType(p) == Success('A') ==> FreshId(e.orders, p)
  }

  /** ingestMessage keeps the layout. */
  lemma IngestKeepsLayout(e: Engine, p: Params)
    requires Layout(e) && IngestPre(e, p)
    ensures Layout(Ingest(e, p).engine)
  {
    match MessageType(p)
    case Failure(_) =>
    case Success(t) =>
      if t == 'A' {
        AddKeepsLayout(e, p);
      } else if t == 'X' {
        CancelKeepsLayout(e, p);
      }
  }
}
