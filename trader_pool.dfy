/**
 * The trader pool's order-id counter. The trading bots it is meant to hold
 * draw random numbers and are not part of this model.
 */
module TraderPools {
  import opened Wrappers
  import opened Base36

  class TraderPool {
    /** The last order id handed out, as a 12-character base-36 string. */
    var orderId: array<char>

    ghost predicate Valid()
      reads this, orderId
    {
      orderId.Length == Width && AllDigits(orderId[..])
    }

    constructor ()
      ensures Valid() && fresh(orderId)
      ensures orderId[..] == Zeros(Width) && Value(orderId[..]) == 0
    {
      orderId := new char[Width](_ => '0');
      new;
      assert orderId[..] == Zeros(Width);
      ValueZeros(Width);
    }

    /** getNextOrderID: advances the counter and returns its new value. */
    method GetNextOrderID() returns (r: Result<string>)
      requires Valid()
      modifies orderId
      ensures Valid()
      ensures orderId[..] == Carried(old(orderId[..]))
      ensures r.Success? <==> old(Value(orderId[..])) < MaxValue
      ensures r.Success? ==> r.value == orderId[..] && Value(r.value) == old(Value(orderId[..])) + 1
      ensures r.Failure? ==> r.error == Base36Overflow && orderId[..] == Zeros(Width)
    {
      ghost var before := orderId[..];
      var err := Increment(orderId);
      OverflowAtMax(before);
      ValueBound(before);
      if err.Some? {
        return Failure(err.value);
      }
      IncrementAddsOne(before);
      r := Success(orderId[..]);
    }
  }
}
