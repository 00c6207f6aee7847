/** The PITCH message factory: field lists per message type and share formatting. */
module PitchMsgFactory {
  import opened Wrappers
  import opened Decimal
  import opened PitchMessages

  datatype MsgType = Add | Cancel | Execute | Trade

  const AddOrderFields: seq<string> :=
    ["Timestamp", "MessageType", "OrderID", "Side", "Shares", "Symbol", "Price", "Display"]
  const CancelOrderFields: seq<string> := ["Timestamp", "MessageType", "OrderID", "Shares"]
  const ExecOrderFields: seq<string> := ["Timestamp", "MessageType", "OrderID", "Shares", "ExecutionID"]
  const TradeMsgFields: seq<string> :=
    ["Timestamp", "MessageType", "OrderID", "Side", "Shares", "Symbol", "Price", "ExecutionID"]

  /** The enum's character: ADD = 'A', CANCEL = 'X', EXECUTE = 'E', TRADE = 'P'. */
  function TypeChar(t: MsgType): char {
    match t
    case Add => 'A'
    case Cancel => 'X'
    case Execute => 'E'
    case Trade => 'P'
  }

  function FieldList(t: MsgType): seq<string> {
    match t
    case Add => AddOrderFields
    case Cancel => CancelOrderFields
    case Execute => ExecOrderFields
    case Trade => TradeMsgFields
  }

  /** createPitchMsg: a fresh message of the type's one-letter type string and field list. */
  method CreatePitchMsg(t: MsgType) returns (m: PitchMessage)
    ensures fresh(m)
    ensures m.msgFields == FieldList(t) && m.params == map["MessageType" := [TypeChar(t)]]
    ensures MessageType(m.params) == Success(TypeChar(t))
  {
    match t
    case Add => m := new PitchMessage("A", AddOrderFields);
    case Cancel => m := new PitchMessage("X", CancelOrderFields);
    case Execute => m := new PitchMessage("E", ExecOrderFields);
    case Trade => m := new PitchMessage("P", TradeMsgFields);
  }

  /**
   * getSharesStr: the share count written with width 6 and fill '0'. As the
   * stream's default right alignment pads before a minus sign, -5 becomes "0000-5".
   */
  function SharesStr(shares: int): (s: string)
    ensures shares >= 0 ==> |s| >= 6 && AllDecimal(s)
  {
    if shares >= 0 then PadLeft(DecimalString(shares), 6, '0')
    else PadLeft("-" + DecimalString(-shares), 6, '0')
  }

  // ---------------------------------------------------------------------------
  // Properties

  /** A freshly created message reports its type and cannot be serialised yet (no Timestamp). */
  lemma FreshMessage(t: MsgType)
    ensures MessageType(map["MessageType" := [TypeChar(t)]]) == Success(TypeChar(t))
    ensures Serialized(FieldList(t), map["MessageType" := [TypeChar(t)]]) == Failure(MissingField("Timestamp"))
  {
    var p := map["MessageType" := [TypeChar(t)]];
    FirstMissingIs(FieldList(t), p, 0);
  }

  /** For 0 <= n < 10^6 the share string is exactly six digits. */
  lemma SharesStrWidth(n: int)
    requires 0 <= n < 1000000
    ensures |SharesStr(n)| == 6 && AllDecimal(SharesStr(n))
  {
    DecimalStringLength(n, 5);
    assert Pow10(6) == 1000000;
  }

  /** Reading a share string back as shares() does gives the count, for every count an int holds. */
  lemma SharesRoundTrip(n: int)
    requires 0 <= n <= IntMax
    ensures Shares(map["Shares" := SharesStr(n)]) == Success(n)
  {
    var d := DecimalString(n);
    var k := if |d| >= 6 then 0 else 6 - |d|;
    assert SharesStr(n) == seq(k, _ => '0') + d;
    LeadingZerosValue(k, d);
    DecimalStringValue(n);
    DigitsParse(SharesStr(n));
  }

  /** A small negative count does not survive the round trip: the zero fill hides the sign. */
  lemma NegativeSharesReadAsZero()
    ensures SharesStr(-5) == "0000-5"
    ensures Shares(map["Shares" := SharesStr(-5)]) == Success(0)
  {
    var s := SharesStr(-5);
    assert DecimalString(5) == "5";
    assert s == "0000-5";
    assert SpaceRun(s) == 0;
    assert s[0..] == s;
    assert DigitRun(s) == 4 by {
      assert DigitRun(s[4..]) == 0;
      assert s[1..][3..] == s[4..] && s[2..][2..] == s[4..] && s[3..][1..] == s[4..];
    }
    AllZerosValue(4);
    assert s[..4] == seq(4, _ => '0');
  }

  /** Values of a list one field longer: the shorter list's values followed by the new field's. */
  lemma ValuesSnoc(fields: seq<string>, k: nat, params: Params)
    requires k < |fields| && HasFields(fields[..k + 1], params)
    ensures HasFields(fields[..k], params)
    ensures Values(fields[..k + 1], params) == Values(fields[..k], params) + params[fields[k]]
  {
    assert fields[..k + 1][..k] == fields[..k];
  }

  /** Values of two lists one after the other: the first list's values followed by the second's. */
  lemma {:induction false} ValuesConcat(a: seq<string>, b: seq<string>, params: Params)
    requires HasFields(a, params) && HasFields(b, params)
    ensures HasFields(a + b, params)
    ensures Values(a + b, params) == Values(a, params) + Values(b, params)
    decreases |b|
  {
    if b == [] {
      assert a + b == a;
    } else {
      var b' := b[..|b| - 1];
      assert (a + b)[..|a + b| - 1] == a + b';
      ValuesConcat(a, b', params);
    }
  }

  /** Values of a four-field list: the four values in order. */
  lemma ValuesOfFour(f: seq<string>, params: Params)
    requires |f| == 4 && HasFields(f, params)
    ensures Values(f, params) == params[f[0]] + params[f[1]] + params[f[2]] + params[f[3]]
  {
    assert f[..4] == f;
    assert f[..0] == [];
    ValuesSnoc(f, 0, params);
    ValuesSnoc(f, 1, params);
    ValuesSnoc(f, 2, params);
    ValuesSnoc(f, 3, params);
  }

  /** An add message serialises as "S" followed by its eight values in the add field order. */
  lemma AddMessageString(p: Params)
    requires "Timestamp" in p && "MessageType" in p && "OrderID" in p && "Side" in p
    requires "Shares" in p && "Symbol" in p && "Price" in p && "Display" in p
    ensures Serialized(AddOrderFields, p)
         == Success("S" + p["Timestamp"] + p["MessageType"] + p["OrderID"] + p["Side"]
                        + p["Shares"] + p["Symbol"] + p["Price"] + p["Display"])
  {
    var f := AddOrderFields;
    var a, b := f[..4], f[4..];
    assert f == a + b;
    ValuesOfFour(a, p);
    ValuesOfFour(b, p);
    ValuesConcat(a, b, p);
    var x := p["Timestamp"] + p["MessageType"] + p["OrderID"] + p["Side"];
    var y := p["Shares"] + p["Symbol"] + p["Price"] + p["Display"];
    assert Values(f, p) == x + y;
    assert "S" + (x + y) == "S" + p["Timestamp"] + p["MessageType"] + p["OrderID"] + p["Side"]
                          + p["Shares"] + p["Symbol"] + p["Price"] + p["Display"];
  }

  /** A cancel message serialises as "S" followed by its four values in the cancel field order. */
  lemma CancelMessageString(p: Params)
    requires "Timestamp" in p && "MessageType" in p && "OrderID" in p && "Shares" in p
    ensures Serialized(CancelOrderFields, p)
         == Success("S" + p["Timestamp"] + p["MessageType"] + p["OrderID"] + p["Shares"])
  {
    var f := CancelOrderFields;
    ValuesOfFour(f, p);
    assert "S" + Values(f, p) == "S" + p["Timestamp"] + p["MessageType"] + p["OrderID"] + p["Shares"];
  }
}
