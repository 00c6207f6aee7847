/**
 * The order record that rests on a book: its symbol, price, side and id never
 * change after construction; only its share count moves, by tradeShares.
 */
module Orders {

  /** The value of an order at one moment: everything but its identity. */
  datatype OrderView = OrderView(symbol: string, shares: int, price: int, side: char)

  /** The view after trading (or cancelling) d shares: shares go down by d, nothing else moves. */
  function Traded(v: OrderView, d: int): (w: OrderView)
    ensures w.symbol == v.symbol && w.price == v.price && w.side == v.side
    ensures w.shares + d == v.shares
  {
    v.(shares := v.shares - d)
  }

  /** Trading a and then b is trading a + b, and trading nothing changes nothing. */
  lemma TradedTwice(v: OrderView, a: int, b: int)
    ensures Traded(Traded(v, a), b) == Traded(v, a + b)
    ensures Traded(v, 0) == v
  {
  }

  class Order {
    const symbol: string
    var shares: int
    const price: int       // in ticks of 1/10,000 dollar
    const side: char       // any tag; only 'B' and 'S' are ever booked
    const id: string

    /** Stores every argument verbatim. */
    constructor (newSymbol: string, newShares: int, newPrice: int, newSide: char, newId: string)
      ensures symbol == newSymbol && shares == newShares && price == newPrice
      ensures side == newSide && id == newId
    {
      symbol := newSymbol;
      shares := newShares;
      price := newPrice;
      side := newSide;
      id := newId;
    }

    /** The order's current value. */
    function View(): OrderView
      reads this
    {
      OrderView(symbol, shares, price, side)
    }

    /** Takes shareDelta shares off the order; symbol, price, side and id are constants. */
    method TradeShares(shareDelta: int)
      modifies this
      ensures shares == old(shares) - shareDelta
      ensures View() == Traded(old(View()), shareDelta)
    {
      shares := shares - shareDelta;
    }
  }
}
