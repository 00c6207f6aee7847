/**
 * A PITCH message: an ordered list of field names for the wire format and a
 * map from parameter names to their text values. The accessors are functions
 * of the parameter map.
 */
module PitchMessages {
  import opened Wrappers
  import opened Decimal

  type Params = map<string, string>

  /** getParameter: the stored value, or runtime_error for a name never set. */
  function GetParameter(params: Params, name: string): (r: Result<string>)
    ensures r.Success? <==> name in params
    ensures r.Success? ==> r.value == params[name]
    ensures r.Failure? ==> r.error == ParameterNotFound(name)
  {
    if name in params then Success(params[name]) else Failure(ParameterNotFound(name))
  }

  /** The first character of a parameter (string::at(0)); out_of_range on an empty value. */
  function FirstChar(params: Params, name: string): (r: Result<char>)
    ensures r.Success? <==> name in params && |params[name]| > 0
    ensures r.Success? ==> r.value == params[name][0]
    ensures name !in params ==> r == Failure(ParameterNotFound(name))
    ensures name in params && params[name] == "" ==> r == Failure(EmptyValue)
  {
    var v :- GetParameter(params, name);
    if |v| == 0 then Failure(EmptyValue) else Success(v[0])
  }

  /** type(): first character of "MessageType". */
  function MessageType(params: Params): Result<char> { FirstChar(params, "MessageType") }

  /** side(): first character of "Side". */
  function Side(params: Params): Result<char> { FirstChar(params, "Side") }

  /** display(): first character of "Display". */
  function Display(params: Params): Result<char> { FirstChar(params, "Display") }

  /** id(), symbol() and execId(): the stored strings, spaces included. */
  function OrderId(params: Params): Result<string> { GetParameter(params, "OrderID") }

  function Symbol(params: Params): Result<string> { GetParameter(params, "Symbol") }

  function ExecId(params: Params): Result<string> { GetParameter(params, "ExecutionID") }

  /** shares(): std::stoi of "Shares". */
  function Shares(params: Params): Result<int> {
    var v :- GetParameter(params, "Shares");
    Stoi(v)
  }

  /** timestamp(): std::stoi of "Timestamp". */
  function Timestamp(params: Params): Result<int> {
    var v :- GetParameter(params, "Timestamp");
    Stoi(v)
  }

  /**
   * The price as an integer number of ticks of 1/10,000 dollar: the "Price"
   * text read as an integer. (price() itself divides a double by 10,000.)
   */
  function PriceTicks(params: Params): Result<int> {
    var v :- GetParameter(params, "Price");
    ParseLeading(v)
  }

  /** True when every listed field has a value. */
  predicate HasFields(fields: seq<string>, params: Params) {
    forall i :: 0 <= i < |fields| ==> fields[i] in params
  }

  /** The values of the listed fields, concatenated in list order. */
  function Values(fields: seq<string>, params: Params): string
    requires HasFields(fields, params)
  {
    if fields == [] then "" else Values(fields[..|fields| - 1], params) + params[fields[|fields| - 1]]
  }

  /** Index of the first listed field that has no value. */
  function FirstMissing(fields: seq<string>, params: Params): (k: nat)
    requires !HasFields(fields, params)
    ensures k < |fields| && fields[k] !in params && HasFields(fields[..k], params)
  {
    if fields[0] !in params then 0
    else
      var k := 1 + FirstMissing(fields[1..], params);
      assert fields[..k] == [fields[0]] + fields[1..][..k - 1];
      k
  }

  /** What string() produces: "S" and the field values, or the first missing field. */
  function Serialized(fields: seq<string>, params: Params): Result<string> {
    if HasFields(fields, params) then Success("S" + Values(fields, params))
    else Failure(MissingField(fields[FirstMissing(fields, params)]))
  }

  class PitchMessage {
    var msgFields: seq<string>
    var params: Params

    /** Records the field list and sets "MessageType" to the given type string. */
    constructor (newMsgType: string, fieldList: seq<string>)
      ensures msgFields == fieldList
      ensures params == map["MessageType" := newMsgType]
    {
      msgFields := fieldList;
      params := map[];
      new;
      var _ := SetParameter("MessageType", newMsgType);
    }

    /** setParameter: stores (or overwrites) one value and returns the message for chaining. */
    method SetParameter(param: string, value: string) returns (self: PitchMessage)
      modifies this
      ensures self == this
      ensures params == old(params)[param := value]
      ensures msgFields == old(msgFields)
    {
      params := params[param := value];
      self := this;
    }

    /** string(): appends the listed fields' values to "S", failing at the first missing one. */
    method String() returns (r: Result<string>)
      ensures r == Serialized(msgFields, params)
      ensures r.Success? ==> |r.value| >= 1 && r.value[0] == 'S'
    {
      var pitchString := "S";
      var i := 0;
      while i < |msgFields|
        invariant 0 <= i <= |msgFields|
        invariant HasFields(msgFields[..i], params)
        invariant pitchString == "S" + Values(msgFields[..i], params)
      {
        var fieldName := msgFields[i];
        if fieldName !in params {
          assert !HasFields(msgFields, params);
          FirstMissingIs(msgFields, params, i);
          return Failure(MissingField(fieldName));
        }
        assert msgFields[..i + 1][..i] == msgFields[..i];
        pitchString := pitchString + params[fieldName];
        i := i + 1;
      }
      assert msgFields[..i] == msgFields;
      r := Success(pitchString);
    }
  }

  lemma {:induction false} FirstMissingIs(fields: seq<string>, params: Params, i: nat)
    requires i < |fields| && fields[i] !in params && HasFields(fields[..i], params)
    ensures !HasFields(fields, params) && FirstMissing(fields, params) == i
  {
    assert fields[i] !in params;
    if i > 0 {
      assert fields[0] == fields[..i][0];
      assert fields[1..][..i - 1] == fields[..i][1..];
      FirstMissingIs(fields[1..], params, i - 1);
    }
  }

  // ---------------------------------------------------------------------------
  // Properties

  /** Setting a parameter makes getParameter return it and leaves every other parameter alone. */
  lemma SetThenGet(params: Params, name: string, value: string, other: string)
    ensures GetParameter(params[name := value], name) == Success(value)
    ensures other != name ==> GetParameter(params[name := value], other) == GetParameter(params, other)
  {
  }

  /**
   * shares() and timestamp() read a field made only of digits, leading zeros
   * allowed, as its decimal value; the price is read the same way, unbounded.
   */
  lemma DigitFieldsParse(params: Params, name: string)
    requires name in params && |params[name]| > 0 && AllDecimal(params[name])
    ensures name == "Shares" && DecimalValue(params[name]) <= IntMax ==>
              Shares(params) == Success(DecimalValue(params[name]))
    ensures name == "Timestamp" && DecimalValue(params[name]) <= IntMax ==>
              Timestamp(params) == Success(DecimalValue(params[name]))
    ensures name == "Price" ==> PriceTicks(params) == Success(DecimalValue(params[name]))
  {
    DigitsParse(params[name]);
  }

  /** string() fails exactly when a listed field is missing, naming the first one. */
  lemma SerializedFailsIffMissing(fields: seq<string>, params: Params)
    ensures Serialized(fields, params).Failure? <==> exists i :: 0 <= i < |fields| && fields[i] !in params
    ensures Serialized(fields, params).Failure? ==>
              exists i :: 0 <= i < |fields| && fields[i] !in params
                && Serialized(fields, params).error == MissingField(fields[i])
                && forall j :: 0 <= j < i ==> fields[j] in params
  {
    if !HasFields(fields, params) {
      var k := FirstMissing(fields, params);
      assert forall j :: 0 <= j < k ==> fields[..k][j] == fields[j];
    }
  }

  /** Parameters that are not in the field list do not affect string(). */
  lemma {:induction false} SerializedIgnoresUnlisted(fields: seq<string>, p: Params, q: Params)
    requires forall i :: 0 <= i < |fields| ==> (fields[i] in p <==> fields[i] in q)
    requires forall i :: 0 <= i < |fields| && fields[i] in p ==> p[fields[i]] == q[fields[i]]
    ensures Serialized(fields, p) == Serialized(fields, q)
  {
    if HasFields(fields, p) {
      ValuesAgree(fields, p, q);
    } else {
      var k := FirstMissing(fields, p);
      FirstMissingIs(fields, q, k);
    }
  }

  lemma {:induction false} ValuesAgree(fields: seq<string>, p: Params, q: Params)
    requires HasFields(fields, p) && HasFields(fields, q)
    requires forall i :: 0 <= i < |fields| ==> p[fields[i]] == q[fields[i]]
    ensures Values(fields, p) == Values(fields, q)
  {
    if fields != [] {
      ValuesAgree(fields[..|fields| - 1], p, q);
    }
  }
}
