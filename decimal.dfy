/**
 * Decimal text: the integer parsing done by std::stoi (and, for prices, by
 * std::stod restricted to integers) and the digit strings written by an
 * output stream.
 */
module Decimal {
  import opened Wrappers

  predicate IsDecimalDigit(c: char) {
    '0' <= c <= '9'
  }

  predicate AllDecimal(s: seq<char>) {
    forall i :: 0 <= i < |s| ==> IsDecimalDigit(s[i])
  }

  /** The characters isspace accepts in the C locale. */
  predicate IsSpace(c: char) {
    c == ' ' || c == '\t' || c == '\n' || c == '\U{B}' || c == '\U{C}' || c == '\r'
  }

  function DecimalValue(s: seq<char>): nat
    requires AllDecimal(s)
  {
    if s == [] then 0 else DecimalValue(s[..|s| - 1]) * 10 + (s[|s| - 1] as int - '0' as int)
  }

  /** Length of the run of leading whitespace. */
  function SpaceRun(s: seq<char>): (n: nat)
    ensures n <= |s|
    ensures forall i :: 0 <= i < n ==> IsSpace(s[i])
    ensures n < |s| ==> !IsSpace(s[n])
  {
    if s == [] || !IsSpace(s[0]) then 0 else 1 + SpaceRun(s[1..])
  }

  /** Length of the run of leading decimal digits. */
  function DigitRun(s: seq<char>): (n: nat)
    ensures n <= |s| && AllDecimal(s[..n])
    ensures n < |s| ==> !IsDecimalDigit(s[n])
  {
    if s == [] || !IsDecimalDigit(s[0]) then 0
    else
      var n := 1 + DigitRun(s[1..]);
      assert s[..n] == [s[0]] + s[1..][..n - 1];
      n
  }

  /**
   * strtol in base 10: skip leading whitespace, take an optional sign and the
   * longest run of digits that follows; the rest of the string is ignored.
   * No digits at all is invalid_argument. The value is not bounded here.
   */
  function ParseLeading(s: string): Result<int> {
    var t := s[SpaceRun(s)..];
    var signed := |t| > 0 && (t[0] == '-' || t[0] == '+');
    var u := if signed then t[1..] else t;
    var n := DigitRun(u);
    if n == 0 then Failure(NotANumber)
    else if signed && t[0] == '-' then Success(0 - DecimalValue(u[..n]) as int)
    else Success(DecimalValue(u[..n]))
  }

  const IntMin: int := -0x8000_0000
  const IntMax: int := 0x7FFF_FFFF

  /** std::stoi: ParseLeading, then out_of_range unless the value fits in a 32-bit int. */
  function Stoi(s: string): (r: Result<int>)
    ensures r.Success? ==> IntMin <= r.value <= IntMax
    ensures r.Success? <==> ParseLeading(s).Success? && IntMin <= ParseLeading(s).value <= IntMax
    ensures r.Success? ==> r.value == ParseLeading(s).value
    ensures ParseLeading(s).Failure? ==> r == ParseLeading(s)
    ensures ParseLeading(s).Success? && !(IntMin <= ParseLeading(s).value <= IntMax) ==> r == Failure(NumberOutOfRange)
  {
    match ParseLeading(s)
    case Failure(e) => Failure(e)
    case Success(v) => if IntMin <= v <= IntMax then Success(v) else Failure(NumberOutOfRange)
  }

  /** The shortest decimal representation of n, as operator<< writes it. */
  function DecimalString(n: nat): (s: string)
    ensures |s| >= 1 && AllDecimal(s)
    decreases n
  {
    if n < 10 then [('0' as int + n) as char]
    else DecimalString(n / 10) + [('0' as int + n % 10) as char]
  }

  /** The result of std::setw(width) with std::setfill(fill): fill on the left up to width. */
  function PadLeft(s: string, width: nat, fill: char): (t: string)
    ensures |t| == if |s| >= width then |s| else width
  {
    if |s| >= width then s else seq(width - |s|, _ => fill) + s
  }

  // ---------------------------------------------------------------------------

  lemma {:induction false} DecimalStringValue(n: nat)
    ensures DecimalValue(DecimalString(n)) == n
    decreases n
  {
    if n >= 10 {
      DecimalStringValue(n / 10);
      var s := DecimalString(n);
      assert s[..|s| - 1] == DecimalString(n / 10);
    }
  }

  /** DecimalString(n) has at most k digits exactly when n < 10^k. */
  lemma {:induction false} DecimalStringLength(n: nat, k: nat)
    ensures |DecimalString(n)| <= k + 1 <==> n < Pow10(k + 1)
    decreases n
  {
    if n >= 10 {
      if k > 0 {
        DecimalStringLength(n / 10, k - 1);
      } else {
        assert |DecimalString(n)| >= 2 by { assert |DecimalString(n / 10)| >= 1; }
      }
    }
  }

  function Pow10(k: nat): (p: nat)
    ensures p >= 1
  {
    if k == 0 then 1 else 10 * Pow10(k - 1)
  }

  /** Leading zeros do not change a digit string's value. */
  lemma {:induction false} LeadingZerosValue(k: nat, s: seq<char>)
    requires AllDecimal(s)
    ensures AllDecimal(seq(k, _ => '0') + s)
    ensures DecimalValue(seq(k, _ => '0') + s) == DecimalValue(s)
  {
    var z := seq(k, _ => '0');
    if s == [] {
      assert z + s == z;
      AllZerosValue(k);
    } else {
      var s' := s[..|s| - 1];
      assert (z + s)[..|z + s| - 1] == z + s';
      LeadingZerosValue(k, s');
    }
  }

  lemma {:induction false} AllZerosValue(k: nat)
    ensures DecimalValue(seq(k, _ => '0')) == 0
  {
    if k > 0 {
      assert seq(k, _ => '0')[..k - 1] == seq(k - 1, _ => '0');
      AllZerosValue(k - 1);
    }
  }

  /** A string made only of digits (at least one) parses to its value. */
  lemma DigitsParse(s: string)
    requires |s| > 0 && AllDecimal(s)
    ensures ParseLeading(s) == Success(DecimalValue(s))
  {
    assert SpaceRun(s) == 0;
    assert s[0..] == s;
    DigitRunAll(s);
    assert s[..|s|] == s;
  }

  lemma {:induction false} DigitRunAll(s: seq<char>)
    requires AllDecimal(s)
    ensures DigitRun(s) == |s|
  {
    if s != [] {
      DigitRunAll(s[1..]);
    }
  }
}
