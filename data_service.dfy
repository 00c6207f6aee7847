/**
 * The data service: owner of the process-wide execution-id counter. Its
 * outbound lock-free queue is not part of this model.
 */
module DataServices {
  import opened Wrappers
  import opened Base36

  class DataService {
    /** The last execution id handed out, as a 12-character base-36 string. */
    var executionID: array<char>

    ghost predicate Valid()
      reads this, executionID
    {
      executionID.Length == Width && AllDigits(executionID[..])
    }

    constructor ()
      ensures Valid() && fresh(executionID)
      ensures executionID[..] == Zeros(Width) && Value(executionID[..]) == 0
    {
      executionID := new char[Width](_ => '0');
      new;
      assert executionID[..] == Zeros(Width);
      ValueZeros(Width);
    }

    /**
     * getNextExecutionID: advances the counter and returns its new value. The
     * value goes up by exactly one; only the all-'Z' counter overflows, and then
     * it is left at all '0'.
     */
    method GetNextExecutionID() returns (r: Result<string>)
      requires Valid()
      modifies executionID
      ensures Valid()
      ensures executionID[..] == Carried(old(executionID[..]))
      ensures r.Success? <==> old(Value(executionID[..])) < MaxValue
      ensures r.Success? ==> r.value == executionID[..] && Value(r.value) == old(Value(executionID[..])) + 1
      ensures r.Failure? ==> r.error == Base36Overflow && executionID[..] == Zeros(Width)
    {
      ghost var before := executionID[..];
      var err := Increment(executionID);
      OverflowAtMax(before);
      ValueBound(before);
      if err.Some? {
        return Failure(err.value);
      }
      IncrementAddsOne(before);
      r := Success(executionID[..]);
    }
  }
}
