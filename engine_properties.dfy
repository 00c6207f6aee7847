/**
 * What the engine promises, proved on the value-level model: price-time
 * priority inside a sweep, conservation of shares, the unreachable negative
 * share guard, and what adds and cancels leave untouched.
 */
module EngineProperties {
  import opened Wrappers
  import opened Orders
  import opened EngineSpec
  import opened EngineLayout

  /** The shares traded by a run of fills. */
  function TotalShares(fills: seq<Fill>): int {
    if fills == [] then 0 else fills[0].shares + TotalShares(fills[1..])
  }

  lemma {:induction false} TotalSharesAppend(f: seq<Fill>, g: seq<Fill>)
    ensures TotalShares(f + g) == TotalShares(f) + TotalShares(g)
    decreases |f|
  {
    if f == [] {
      assert f + g == g;
    } else {
      assert (f + g)[1..] == f[1..] + g;
      TotalSharesAppend(f[1..], g);
    }
  }

  lemma ConsPrefixTotal(f: Fill, r: seq<Fill>, j: nat)
    requires 1 <= j <= |r| + 1
    ensures TotalShares(([f] + r)[..j]) == f.shares + TotalShares(r[..j - 1])
  {
    assert ([f] + r)[..j] == [f] + r[..j - 1];
    TotalSharesAppend([f], r[..j - 1]);
  }

  // ---------------------------------------------------------------------------
  // One queue

  /** Trading against a queue conserves shares: what is left plus what traded is what came in. */
  lemma {:induction false} ConsumeConserves(q: seq<Id>, orders: OrderViews, incoming: int)
    ensures var c := ConsumeQueue(q, orders, incoming); c.remaining + TotalShares(c.fills) == incoming
    decreases |q|
  {
    if q != [] {
      var v := ViewOf(orders, q[0]);
      var delta := Min(v.shares, incoming);
      var left := incoming - delta;
      if v.shares - delta == 0 && left != 0 {
        ConsumeConserves(q[1..], orders - {q[0]}, left);
        var rest := ConsumeQueue(q[1..], orders - {q[0]}, left);
        TotalSharesAppend([Fill(q[0], delta, v.price)], rest.fills);
      }
    }
  }

  /**
   * After at least one trade the incoming order never has fewer than 0
   * shares, whatever the sign of the share counts: the guard that throws on
   * a negative count after a trade can never fire.
   */
  lemma {:induction false} ConsumeLeavesNoDebt(q: seq<Id>, orders: OrderViews, incoming: int)
    requires q != []
    ensures ConsumeQueue(q, orders, incoming).remaining >= 0
    decreases |q|
  {
    var v := ViewOf(orders, q[0]);
    var delta := Min(v.shares, incoming);
    var left := incoming - delta;
    if v.shares - delta == 0 && left != 0 && q[1..] != [] {
      ConsumeLeavesNoDebt(q[1..], orders - {q[0]}, left);
    }
  }

  /** Time priority inside a level: the fills take the queue from its head, in order, each at the resting order's price. */
  lemma {:induction false} ConsumeFifo(q: seq<Id>, orders: OrderViews, incoming: int)
    requires NoDup(q)
    ensures var c := ConsumeQueue(q, orders, incoming);
      var n := |q| - |c.queue|;
      0 <= n <= |c.fills| <= |q| && c.queue == q[n..]
      && forall j :: 0 <= j < |c.fills| ==> c.fills[j].orderId == q[j] && c.fills[j].price == ViewOf(orders, q[j]).price
    decreases |q|
  {
    if q != [] {
      var v := ViewOf(orders, q[0]);
      var delta := Min(v.shares, incoming);
      var left := incoming - delta;
      if v.shares - delta == 0 && left != 0 {
        var orders' := orders - {q[0]};
        var q' := q[1..];
        ConsumeFifo(q', orders', left);
        var rest := ConsumeQueue(q', orders', left);
        var c := ConsumeQueue(q, orders, incoming);
        assert c.fills == [Fill(q[0], delta, v.price)] + rest.fills && c.queue == rest.queue;
        forall j | 1 <= j < |c.fills| ensures c.fills[j].orderId == q[j] && c.fills[j].price == ViewOf(orders, q[j]).price {
          assert c.fills[j] == rest.fills[j - 1] && q'[j - 1] == q[j] && q[j] != q[0];
        }
        assert q'[|q'| - |rest.queue|..] == q[|q| - |rest.queue|..];
      }
    }
  }

  /** Fill j trades min(resting, left) shares, where left is what the incoming order still had before it. */
  ghost predicate TradesMin(q: seq<Id>, orders: OrderViews, incoming: int, fills: seq<Fill>) {
    |fills| <= |q|
    && forall j :: 0 <= j < |fills| ==>
         fills[j].shares == Min(ViewOf(orders, q[j]).shares, incoming - TotalShares(fills[..j]))
  }

  lemma TradesMinCons(q: seq<Id>, orders: OrderViews, incoming: int, rest: seq<Fill>)
    requires NoDup(q) && q != []
    requires var delta := Min(ViewOf(orders, q[0]).shares, incoming);
      TradesMin(q[1..], orders - {q[0]}, incoming - delta, rest)
    ensures var v := ViewOf(orders, q[0]);
      TradesMin(q, orders, incoming, [Fill(q[0], Min(v.shares, incoming), v.price)] + rest)
  {
    var v := ViewOf(orders, q[0]);
    var fill := Fill(q[0], Min(v.shares, incoming), v.price);
    var fills := [fill] + rest;
    assert fills[..0] == [];
    forall j | 1 <= j < |fills|
      ensures fills[j].shares == Min(ViewOf(orders, q[j]).shares, incoming - TotalShares(fills[..j]))
    {
      assert fills[j] == rest[j - 1] && q[1..][j - 1] == q[j] && q[j] != q[0];
      ConsPrefixTotal(fill, rest, j);
    }
  }

  /** Each fill of a queue trades min(resting, left) shares. */
  lemma {:induction false} ConsumeFillsMin(q: seq<Id>, orders: OrderViews, incoming: int)
    requires NoDup(q)
    ensures var c := ConsumeQueue(q, orders, incoming); TradesMin(q, orders, incoming, c.fills)
    decreases |q|
  {
    if q != [] {
      var v := ViewOf(orders, q[0]);
      var delta := Min(v.shares, incoming);
      var left := incoming - delta;
      var fill := Fill(q[0], delta, v.price);
      if v.shares - delta == 0 && left != 0 {
        ConsumeFillsMin(q[1..], orders - {q[0]}, left);
        var rest := ConsumeQueue(q[1..], orders - {q[0]}, left);
        TradesMinCons(q, orders, incoming, rest.fills);
        assert ConsumeQueue(q, orders, incoming).fills == [fill] + rest.fills;
      } else {
        TradesMinCons(q, orders, incoming, []);
        assert ConsumeQueue(q, orders, incoming).fills == [fill] + [];
      }
    }
  }

  /** The resting orders that left the queue traded all their shares. */
  lemma {:induction false} ConsumeRemovedFull(q: seq<Id>, orders: OrderViews, incoming: int)
    requires NoDup(q)
    ensures var c := ConsumeQueue(q, orders, incoming);
      |q| - |c.queue| <= |c.fills|
      && forall j :: 0 <= j < |q| - |c.queue| ==> c.fills[j].shares == ViewOf(orders, q[j]).shares
    decreases |q|
  {
    if q != [] {
      var v := ViewOf(orders, q[0]);
      var delta := Min(v.shares, incoming);
      var left := incoming - delta;
      if v.shares - delta == 0 && left != 0 {
        var orders' := orders - {q[0]};
        var q' := q[1..];
        ConsumeRemovedFull(q', orders', left);
        var rest := ConsumeQueue(q', orders', left);
        var c := ConsumeQueue(q, orders, incoming);
        assert c.fills == [Fill(q[0], delta, v.price)] + rest.fills && c.queue == rest.queue;
        forall j | 1 <= j < |q| - |c.queue| ensures c.fills[j].shares == ViewOf(orders, q[j]).shares {
          assert c.fills[j] == rest.fills[j - 1] && q'[j - 1] == q[j] && q[j] != q[0];
        }
      }
    }
  }

  // ---------------------------------------------------------------------------
  // One price map

  /** Sweeping conserves shares. */
  lemma {:induction false} SweepConserves(pm: PriceMap, orders: OrderViews, opp: char, limit: int, incoming: int)
    ensures var s := Sweep(pm, orders, opp, limit, incoming); s.remaining + TotalShares(s.fills) == incoming
    decreases |pm|
  {
    match MatchOrder(pm, opp, limit)
    case None =>
    case Some(i) =>
      var c := ConsumeQueue(pm[i].queue, orders, incoming);
      ConsumeConserves(pm[i].queue, orders, incoming);
      if c.remaining != 0 {
        var pm' := pm[..i] + pm[i + 1..];
        SweepConserves(pm', c.orders, opp, limit, c.remaining);
        TotalSharesAppend(c.fills, Sweep(pm', c.orders, opp, limit, c.remaining).fills);
      }
  }

  /** Once a level matched, the incoming order is never left with fewer than 0 shares. */
  lemma {:induction false} SweepLeavesNoDebt(pm: PriceMap, orders: OrderViews, opp: char, limit: int, incoming: int)
    requires MatchOrder(pm, opp, limit).Some?
    ensures Sweep(pm, orders, opp, limit, incoming).remaining >= 0
    decreases |pm|
  {
    var i := MatchOrder(pm, opp, limit).value;
    var c := ConsumeQueue(pm[i].queue, orders, incoming);
    ConsumeLeavesNoDebt(pm[i].queue, orders, incoming);
    if c.remaining != 0 {
      var pm' := pm[..i] + pm[i + 1..];
      if MatchOrder(pm', opp, limit).Some? {
        SweepLeavesNoDebt(pm', c.orders, opp, limit, c.remaining);
      }
    }
  }

  ghost predicate AllAtLeast(fills: seq<Fill>, p: int) {
    forall j :: 0 <= j < |fills| ==> fills[j].price >= p
  }

  ghost predicate AllAtMost(fills: seq<Fill>, p: int) {
    forall j :: 0 <= j < |fills| ==> fills[j].price <= p
  }

  /** Fill prices never go down. */
  ghost predicate Rising(fills: seq<Fill>) {
    forall a, b :: 0 <= a < b < |fills| ==> fills[a].price <= fills[b].price
  }

  /** Fill prices never go up. */
  ghost predicate Falling(fills: seq<Fill>) {
    forall a, b :: 0 <= a < b < |fills| ==> fills[a].price >= fills[b].price
  }

  lemma BoundsAppend(a: seq<Fill>, b: seq<Fill>, lo: int, hi: int)
    ensures AllAtLeast(a, lo) && AllAtLeast(b, lo) ==> AllAtLeast(a + b, lo)
    ensures AllAtMost(a, hi) && AllAtMost(b, hi) ==> AllAtMost(a + b, hi)
  {
  }

  lemma RisingAppend(a: seq<Fill>, b: seq<Fill>, p: int)
    requires Rising(a) && Rising(b) && AllAtMost(a, p) && AllAtLeast(b, p)
    ensures Rising(a + b)
  {
  }

  lemma FallingAppend(a: seq<Fill>, b: seq<Fill>, p: int)
    requires Falling(a) && Falling(b) && AllAtLeast(a, p) && AllAtMost(b, p)
    ensures Falling(a + b)
  {
  }

  /** The fills of a queue resting at one level all carry that level's price. */
  lemma ConsumeAtLevelPrice(pm: PriceMap, orders: OrderViews, opp: char, symbol: string, i: nat, incoming: int)
    requires MapPlaced(pm, orders, opp, symbol) && i < |pm|
    ensures var c := ConsumeQueue(pm[i].queue, orders, incoming);
      AllAtLeast(c.fills, pm[i].price) && AllAtMost(c.fills, pm[i].price) && Rising(c.fills) && Falling(c.fills)
  {
    var q := pm[i].queue;
    ConsumeFifo(q, orders, incoming);
    assert LevelPlaced(pm[i], orders, opp, symbol);
  }

  /** What one matched level leaves for the rest of the sweep: a placed map without that level. */
  lemma SweepStepPlaced(pm: PriceMap, orders: OrderViews, opp: char, symbol: string, i: nat, incoming: int)
    requires MapPlaced(pm, orders, opp, symbol) && i < |pm|
    requires ConsumeQueue(pm[i].queue, orders, incoming).remaining != 0
    ensures MapPlaced(pm[..i] + pm[i + 1..], ConsumeQueue(pm[i].queue, orders, incoming).orders, opp, symbol)
  {
    var c := ConsumeQueue(pm[i].queue, orders, incoming);
    ConsumeTrims(pm, orders, opp, symbol, i, incoming);
    EraseShape(pm, orders, c.orders, opp, symbol, i);
  }

  /** The levels left once level i is erased keep their prices. */
  lemma ErasedPrices(pm: PriceMap, i: nat, lo: int, hi: int)
    requires i < |pm|
    requires forall j :: 0 <= j < |pm| ==> lo <= pm[j].price <= hi
    ensures var pm' := pm[..i] + pm[i + 1..]; forall j :: 0 <= j < |pm'| ==> lo <= pm'[j].price <= hi
  {
    var pm' := pm[..i] + pm[i + 1..];
    assert forall j :: 0 <= j < |pm'| ==> pm'[j] == pm[if j < i then j else j + 1];
  }

  /** Every fill of a sweep is at a price between the lowest and the highest level price. */
  lemma {:induction false} SweepFillsWithin(pm: PriceMap, orders: OrderViews, opp: char, limit: int, incoming: int,
                                            symbol: string, lo: int, hi: int)
    requires MapPlaced(pm, orders, opp, symbol)
    requires forall j :: 0 <= j < |pm| ==> lo <= pm[j].price <= hi
    ensures var s := Sweep(pm, orders, opp, limit, incoming); AllAtLeast(s.fills, lo) && AllAtMost(s.fills, hi)
    decreases |pm|
  {
    match MatchOrder(pm, opp, limit)
    case None =>
    case Some(i) =>
      var c := ConsumeQueue(pm[i].queue, orders, incoming);
      ConsumeAtLevelPrice(pm, orders, opp, symbol, i, incoming);
      BoundsWeaken(c.fills, pm[i].price, hi);
      BoundsWeaken(c.fills, pm[i].price, lo);
      SweepStep(pm, orders, opp, limit, incoming);
      if c.remaining != 0 {
        var pm' := pm[..i] + pm[i + 1..];
        SweepStepPlaced(pm, orders, opp, symbol, i, incoming);
        ErasedPrices(pm, i, lo, hi);
        SweepFillsWithin(pm', c.orders, opp, limit, c.remaining, symbol, lo, hi);
        BoundsAppend(c.fills, Sweep(pm', c.orders, opp, limit, c.remaining).fills, lo, hi);
      }
  }

  /** One matched level that does not use up the incoming order: the sweep's fills are that level's, then the rest's. */
  lemma SweepStep(pm: PriceMap, orders: OrderViews, opp: char, limit: int, incoming: int)
    requires MatchOrder(pm, opp, limit).Some?
    ensures var i := MatchOrder(pm, opp, limit).value;
      var c := ConsumeQueue(pm[i].queue, orders, incoming);
      (c.remaining == 0 ==> Sweep(pm, orders, opp, limit, incoming).fills == c.fills)
      && (c.remaining != 0 ==>
            Sweep(pm, orders, opp, limit, incoming).fills
            == c.fills + Sweep(pm[..i] + pm[i + 1..], c.orders, opp, limit, c.remaining).fills)
  {
  }

  lemma BoundsWeaken(fills: seq<Fill>, p: int, q: int)
    ensures p <= q && AllAtMost(fills, p) ==> AllAtMost(fills, q)
    ensures q <= p && AllAtLeast(fills, p) ==> AllAtLeast(fills, q)
  {
  }

  /**
   * Every fill crosses the incoming order's limit: an incoming buy never
   * pays more than its limit, an incoming sell never receives less.
   */
  lemma SweepFillsCross(pm: PriceMap, orders: OrderViews, opp: char, limit: int, incoming: int, symbol: string)
    requires MapPlaced(pm, orders, opp, symbol)
    ensures var s := Sweep(pm, orders, opp, limit, incoming);
      (opp == 'S' ==> AllAtMost(s.fills, limit)) && (opp == 'B' ==> AllAtLeast(s.fills, limit))
  {
    if opp == 'S' {
      SweepBuysAtMost(pm, orders, limit, incoming, symbol);
    } else if opp == 'B' {
      SweepSellsAtLeast(pm, orders, limit, incoming, symbol);
    }
  }

  /** An incoming buy sweeping the sells never pays more than its limit. */
  lemma {:induction false} SweepBuysAtMost(pm: PriceMap, orders: OrderViews, limit: int, incoming: int, symbol: string)
    requires MapPlaced(pm, orders, 'S', symbol)
    ensures AllAtMost(Sweep(pm, orders, 'S', limit, incoming).fills, limit)
    decreases |pm|
  {
    match MatchOrder(pm, 'S', limit)
    case None =>
    case Some(i) =>
      var c := ConsumeQueue(pm[i].queue, orders, incoming);
      ConsumeAtLevelPrice(pm, orders, 'S', symbol, i, incoming);
      BoundsWeaken(c.fills, pm[i].price, limit);
      SweepStep(pm, orders, 'S', limit, incoming);
      if c.remaining != 0 {
        var pm' := pm[..i] + pm[i + 1..];
        SweepStepPlaced(pm, orders, 'S', symbol, i, incoming);
        SweepBuysAtMost(pm', c.orders, limit, c.remaining, symbol);
        BoundsAppend(c.fills, Sweep(pm', c.orders, 'S', limit, c.remaining).fills, limit, limit);
      }
  }

  /** An incoming sell sweeping the buys never receives less than its limit. */
  lemma {:induction false} SweepSellsAtLeast(pm: PriceMap, orders: OrderViews, limit: int, incoming: int, symbol: string)
    requires MapPlaced(pm, orders, 'B', symbol)
    ensures AllAtLeast(Sweep(pm, orders, 'B', limit, incoming).fills, limit)
    decreases |pm|
  {
    match MatchOrder(pm, 'B', limit)
    case None =>
    case Some(i) =>
      var c := ConsumeQueue(pm[i].queue, orders, incoming);
      ConsumeAtLevelPrice(pm, orders, 'B', symbol, i, incoming);
      BoundsWeaken(c.fills, pm[i].price, limit);
      SweepStep(pm, orders, 'B', limit, incoming);
      if c.remaining != 0 {
        var pm' := pm[..i] + pm[i + 1..];
        SweepStepPlaced(pm, orders, 'B', symbol, i, incoming);
        SweepSellsAtLeast(pm', c.orders, limit, c.remaining, symbol);
        BoundsAppend(c.fills, Sweep(pm', c.orders, 'B', limit, c.remaining).fills, limit, limit);
      }
  }

  /**
   * After the matched level, the rest of a sweep fills at prices no better
   * for the incoming order than that level's: no lower for a buy, no higher
   * for a sell.
   */
  lemma RestBeyondLevel(pm: PriceMap, orders: OrderViews, opp: char, limit: int, incoming: int, symbol: string, i: nat)
    requires MapPlaced(pm, orders, opp, symbol) && MatchOrder(pm, opp, limit) == Some(i)
    requires ConsumeQueue(pm[i].queue, orders, incoming).remaining != 0
    ensures var c := ConsumeQueue(pm[i].queue, orders, incoming);
      var rest := Sweep(pm[..i] + pm[i + 1..], c.orders, opp, limit, c.remaining);
      (opp == 'S' ==> AllAtLeast(rest.fills, pm[i].price)) && (opp == 'B' ==> AllAtMost(rest.fills, pm[i].price))
  {
    var c := ConsumeQueue(pm[i].queue, orders, incoming);
    var lo, hi := pm[0].price, pm[|pm| - 1].price;
    assert forall j :: 0 <= j < |pm| ==> lo <= pm[j].price <= hi by {
      forall j | 0 <= j < |pm| ensures lo <= pm[j].price <= hi {
        if 0 < j { assert pm[0].price < pm[j].price; }
        if j < |pm| - 1 { assert pm[j].price < pm[|pm| - 1].price; }
      }
    }
    SweepStepPlaced(pm, orders, opp, symbol, i, incoming);
    ErasedPrices(pm, i, lo, hi);
    SweepFillsWithin(pm[..i] + pm[i + 1..], c.orders, opp, limit, c.remaining, symbol, lo, hi);
  }

  /**
   * Price priority: an incoming buy trades the cheapest sells first, so its
   * fill prices never go down; an incoming sell trades the dearest buys
   * first, so its fill prices never go up.
   */
  lemma SweepBestFirst(pm: PriceMap, orders: OrderViews, opp: char, limit: int, incoming: int, symbol: string)
    requires MapPlaced(pm, orders, opp, symbol)
    ensures var s := Sweep(pm, orders, opp, limit, incoming);
      (opp == 'S' ==> Rising(s.fills)) && (opp == 'B' ==> Falling(s.fills))
  {
    if opp == 'S' {
      SweepBuysRising(pm, orders, limit, incoming, symbol);
    } else if opp == 'B' {
      SweepSellsFalling(pm, orders, limit, incoming, symbol);
    }
  }

  /** An incoming buy's fill prices never go down. */
  lemma {:induction false} SweepBuysRising(pm: PriceMap, orders: OrderViews, limit: int, incoming: int, symbol: string)
    requires MapPlaced(pm, orders, 'S', symbol)
    ensures Rising(Sweep(pm, orders, 'S', limit, incoming).fills)
    decreases |pm|
  {
    match MatchOrder(pm, 'S', limit)
    case None =>
    case Some(i) =>
      var c := ConsumeQueue(pm[i].queue, orders, incoming);
      ConsumeAtLevelPrice(pm, orders, 'S', symbol, i, incoming);
      SweepStep(pm, orders, 'S', limit, incoming);
      if c.remaining != 0 {
        var pm' := pm[..i] + pm[i + 1..];
        var rest := Sweep(pm', c.orders, 'S', limit, c.remaining);
        SweepStepPlaced(pm, orders, 'S', symbol, i, incoming);
        SweepBuysRising(pm', c.orders, limit, c.remaining, symbol);
        RestBeyondLevel(pm, orders, 'S', limit, incoming, symbol, i);
        RisingAppend(c.fills, rest.fills, pm[i].price);
      }
  }

  /** An incoming sell's fill prices never go up. */
  lemma {:induction false} SweepSellsFalling(pm: PriceMap, orders: OrderViews, limit: int, incoming: int, symbol: string)
    requires MapPlaced(pm, orders, 'B', symbol)
    ensures Falling(Sweep(pm, orders, 'B', limit, incoming).fills)
    decreases |pm|
  {
    match MatchOrder(pm, 'B', limit)
    case None =>
    case Some(i) =>
      var c := ConsumeQueue(pm[i].queue, orders, incoming);
      ConsumeAtLevelPrice(pm, orders, 'B', symbol, i, incoming);
      SweepStep(pm, orders, 'B', limit, incoming);
      if c.remaining != 0 {
        var pm' := pm[..i] + pm[i + 1..];
        var rest := Sweep(pm', c.orders, 'B', limit, c.remaining);
        SweepStepPlaced(pm, orders, 'B', symbol, i, incoming);
        SweepSellsFalling(pm', c.orders, limit, c.remaining, symbol);
        RestBeyondLevel(pm, orders, 'B', limit, incoming, symbol, i);
        FallingAppend(c.fills, rest.fills, pm[i].price);
      }
  }
}
