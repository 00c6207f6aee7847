/**
 * The 12-character base-36 counter used for execution ids and order ids:
 * an in-place increment with carry over the digits 0-9A-Z, least significant
 * digit last.
 */
module Base36 {
  import opened Wrappers

  /** Length every counter string must have. */
  const Width: nat := 12

  predicate IsDigit(c: char) {
    ('0' <= c <= '9') || ('A' <= c <= 'Z')
  }

  predicate AllDigits(s: seq<char>) {
    forall i :: 0 <= i < |s| ==> IsDigit(s[i])
  }

  function DigitValue(c: char): (v: nat)
    requires IsDigit(c)
    ensures v < 36
  {
    if c <= '9' then c as int - '0' as int else c as int - 'A' as int + 10
  }

  function Pow36(k: nat): (p: nat)
    ensures p >= 1
  {
    if k == 0 then 1 else 36 * Pow36(k - 1)
  }

  /** The number a digit string denotes, most significant digit first. */
  function Value(s: seq<char>): nat
    requires AllDigits(s)
  {
    if s == [] then 0 else Value(s[..|s| - 1]) * 36 + DigitValue(s[|s| - 1])
  }

  /** The largest value a counter of Width digits can hold. */
  const MaxValue: nat := Pow36(Width) - 1

  /** The digit that follows c: '9' is followed by 'A'; 'Z' has no follower. */
  function Succ(c: char): (d: char)
    requires IsDigit(c) && c != 'Z'
    ensures IsDigit(d) && DigitValue(d) == DigitValue(c) + 1
  {
    if c == '9' then 'A' else (c as int + 1) as char
  }

  function Zeros(n: nat): (z: seq<char>)
    ensures |z| == n && AllDigits(z)
  {
    seq(n, _ => '0')
  }

  /** Number of consecutive 'Z's at the end of s. */
  function TrailingZs(s: seq<char>): (k: nat)
    ensures k <= |s|
    ensures forall j :: |s| - k <= j < |s| ==> s[j] == 'Z'
    ensures k < |s| ==> s[|s| - 1 - k] != 'Z'
  {
    if s == [] || s[|s| - 1] != 'Z' then 0 else 1 + TrailingZs(s[..|s| - 1])
  }

  /**
   * The counter after one increment, stated by the carry rule: the trailing run
   * of 'Z's becomes '0's, the digit before it is replaced by its successor, and
   * everything to its left is kept. If the string has the wrong length nothing
   * changes; if all digits are 'Z' they all become '0'; if the digit before the
   * run is not a base-36 digit it is kept and only the run is zeroed.
   */
  function Carried(s: seq<char>): (t: seq<char>)
    ensures |t| == |s|
  {
    if |s| != Width then s
    else
      var k := TrailingZs(s);
      var n := |s| - k;
      if n == 0 then Zeros(|s|)
      else if IsDigit(s[n - 1]) then s[..n - 1] + [Succ(s[n - 1])] + Zeros(k)
      else s[..n] + Zeros(k)
  }

  /** The exception one increment raises, if any. */
  function CarryError(s: seq<char>): Option<Error> {
    if |s| != Width then Some(InvalidLength)
    else
      var n := |s| - TrailingZs(s);
      if n == 0 then Some(Base36Overflow)
      else if IsDigit(s[n - 1]) then None
      else Some(InvalidDigit)
  }

  /**
   * incrementBase36: rewrites the characters of a from the last one down,
   * returning at the first digit that does not carry.
   */
  method Increment(a: array<char>) returns (err: Option<Error>)
    modifies a
    ensures a[..] == Carried(old(a[..]))
    ensures err == CarryError(old(a[..]))
  {
    ghost var s := a[..];
    if a.Length != Width {
      return Some(InvalidLength);
    }
    var i: int := Width - 1;
    while i >= 0
      invariant -1 <= i < Width
      invariant forall j :: i < j < Width ==> s[j] == 'Z' && a[j] == '0'
      invariant forall j :: 0 <= j <= i ==> a[j] == s[j]
    {
      var c := a[i];
      if '0' <= c <= '8' {
        a[i] := (c as int + 1) as char;
        TrailingZsAt(s, i);
        assert a[..] == s[..i] + [Succ(s[i])] + Zeros(Width - 1 - i);
        return None;
      } else if c == '9' {
        a[i] := 'A';
        TrailingZsAt(s, i);
        assert a[..] == s[..i] + [Succ(s[i])] + Zeros(Width - 1 - i);
        return None;
      } else if 'A' <= c <= 'Y' {
        a[i] := (c as int + 1) as char;
        TrailingZsAt(s, i);
        assert a[..] == s[..i] + [Succ(s[i])] + Zeros(Width - 1 - i);
        return None;
      } else if c == 'Z' {
        a[i] := '0';
      } else {
        TrailingZsAt(s, i);
        assert a[..] == s[..i + 1] + Zeros(Width - 1 - i);
        return Some(InvalidDigit);
      }
      i := i - 1;
    }
    TrailingZsAtStart(s);
    assert a[..] == Zeros(Width);
    return Some(Base36Overflow);
  }

  lemma {:induction false} TrailingZsAt(s: seq<char>, i: nat)
    requires i < |s| && s[i] != 'Z'
    requires forall j :: i < j < |s| ==> s[j] == 'Z'
    ensures TrailingZs(s) == |s| - 1 - i
  {
    if i < |s| - 1 {
      TrailingZsAt(s[..|s| - 1], i);
    }
  }

  lemma {:induction false} TrailingZsAtStart(s: seq<char>)
    requires forall j :: 0 <= j < |s| ==> s[j] == 'Z'
    ensures TrailingZs(s) == |s|
  {
    if s != [] {
      TrailingZsAtStart(s[..|s| - 1]);
    }
  }

  // ---------------------------------------------------------------------------
  // Arithmetic meaning of the carry rule

  lemma ShiftDigit(x: int, p: int, y: int, d: int)
    ensures (x * p + y) * 36 + d == x * (36 * p) + (y * 36 + d)
  {
    calc {
      (x * p + y) * 36 + d;
      (x * p) * 36 + y * 36 + d;
      { assert (x * p) * 36 == x * (36 * p); }
      x * (36 * p) + (y * 36 + d);
    }
  }

  lemma {:induction false} ValueAppend(a: seq<char>, b: seq<char>)
    requires AllDigits(a) && AllDigits(b)
    ensures AllDigits(a + b)
    ensures Value(a + b) == Value(a) * Pow36(|b|) + Value(b)
  {
    if b == [] {
      assert a + b == a;
    } else {
      var b' := b[..|b| - 1];
      var d := DigitValue(b[|b| - 1]);
      assert (a + b)[..|a + b| - 1] == a + b';
      assert (a + b)[|a + b| - 1] == b[|b| - 1];
      ValueAppend(a, b');
      assert Value(a + b) == Value(a + b') * 36 + d;
      assert Value(b) == Value(b') * 36 + d;
      ShiftDigit(Value(a), Pow36(|b'|), Value(b'), d);
    }
  }

  /** A digit string of length n denotes less than 36^n. */
  lemma {:induction false} ValueBound(s: seq<char>)
    requires AllDigits(s)
    ensures Value(s) < Pow36(|s|)
  {
    if s != [] {
      var s' := s[..|s| - 1];
      ValueBound(s');
      var d := DigitValue(s[|s| - 1]);
      assert Value(s) == Value(s') * 36 + d;
      assert Value(s') * 36 + d < Value(s') * 36 + 36;
      assert Value(s') * 36 + 36 == (Value(s') + 1) * 36;
      assert (Value(s') + 1) * 36 <= Pow36(|s'|) * 36;
    }
  }

  lemma {:induction false} ValueZeros(k: nat)
    ensures Value(Zeros(k)) == 0
  {
    if k > 0 {
      assert Zeros(k)[..k - 1] == Zeros(k - 1);
      ValueZeros(k - 1);
    }
  }

  lemma {:induction false} ValueZs(s: seq<char>)
    requires forall j :: 0 <= j < |s| ==> s[j] == 'Z'
    ensures AllDigits(s) && Value(s) == Pow36(|s|) - 1
  {
    if s != [] {
      ValueZs(s[..|s| - 1]);
    }
  }

  /** Splits s at its trailing run of 'Z's: s == Head + [digit] + Z-run. */
  lemma {:induction false} SplitAtCarry(s: seq<char>) returns (p: seq<char>, c: char, z: seq<char>, hi: nat, pk: nat)
    requires AllDigits(s) && TrailingZs(s) < |s|
    ensures s == p + [c] + z && |z| == TrailingZs(s) && |p| == |s| - 1 - |z|
    ensures p == s[..|p|] && IsDigit(c) && c != 'Z' && AllDigits(p)
    ensures hi == Value(p) * 36 + DigitValue(c) && pk == Pow36(|z|)
    ensures Value(s) == hi * pk + pk - 1
  {
    var n := |s| - TrailingZs(s);
    p, c, z := s[..n - 1], s[n - 1], s[n..];
    hi, pk := Value(p) * 36 + DigitValue(c), Pow36(|z|);
    assert s == p + [c] + z;
    ValueZs(z);
    ValueAppend(p, [c]);
    ValueAppend(p + [c], z);
    assert Value([c]) == DigitValue(c) by {
      assert [c][..0] == [];
    }
  }

  /** Without overflow, an increment adds exactly one to the value and keeps the length. */
  lemma IncrementAddsOne(s: seq<char>)
    requires |s| == Width && AllDigits(s)
    requires Value(s) < MaxValue
    ensures CarryError(s) == None
    ensures |Carried(s)| == Width && AllDigits(Carried(s))
    ensures Value(Carried(s)) == Value(s) + 1
  {
    if TrailingZs(s) == |s| {
      TrailingZsAtStart(s);
      ValueZs(s);
      assert false;
    }
    var p, c, z, hi, q := SplitAtCarry(s);
    var hd := p + [Succ(c)];
    assert Carried(s) == hd + Zeros(|z|);
    SuccValue(p, c, hi, z, q);
  }

  /** The carried string p + [Succ(c)] + '0'-run denotes one more than p + [c] + 'Z'-run. */
  lemma SuccValue(p: seq<char>, c: char, hi: nat, z: seq<char>, q: nat)
    requires AllDigits(p) && IsDigit(c) && c != 'Z' && hi == Value(p) * 36 + DigitValue(c) && q == Pow36(|z|)
    ensures AllDigits(p + [Succ(c)] + Zeros(|z|))
    ensures Value(p + [Succ(c)] + Zeros(|z|)) == (hi * q + q - 1) + 1
  {
    var hd := p + [Succ(c)];
    ValueSnoc(p, Succ(c));
    ValueZerosAppend(hd, |z|);
    NextMultiple(Value(hd), hi, q);
  }

  lemma NextMultiple(v: int, hi: int, q: int)
    requires v == hi + 1
    ensures v * q == (hi * q + q - 1) + 1
  {
  }

  /** One more digit multiplies the value by 36 and adds the digit. */
  lemma ValueSnoc(a: seq<char>, d: char)
    requires AllDigits(a) && IsDigit(d)
    ensures AllDigits(a + [d]) && Value(a + [d]) == Value(a) * 36 + DigitValue(d)
  {
    assert (a + [d])[..|a|] == a;
  }

  /** Appending k '0's multiplies the value by 36^k. */
  lemma {:induction false} ValueZerosAppend(a: seq<char>, k: nat)
    requires AllDigits(a)
    ensures AllDigits(a + Zeros(k)) && Value(a + Zeros(k)) == Value(a) * Pow36(k)
  {
    if k == 0 {
      assert a + Zeros(0) == a;
    } else {
      ValueZerosAppend(a, k - 1);
      assert a + Zeros(k) == (a + Zeros(k - 1)) + ['0'];
      ValueSnoc(a + Zeros(k - 1), '0');
      ShiftDigit(Value(a), Pow36(k - 1), 0, 0);
    }
  }

  /** A counter that does not end in a full run of 'Z's is below the maximum. */
  lemma NotAllZsBelowMax(s: seq<char>)
    requires |s| == Width && AllDigits(s) && TrailingZs(s) < |s|
    ensures Value(s) < MaxValue
  {
    var p, c, z, hi, pk := SplitAtCarry(s);
    var k := |z|;
    ValueBound(p);
    assert DigitValue(c) <= 34;
    var q := Pow36(|p| + 1);
    assert q == Pow36(|p|) * 36;
    assert hi <= q - 2;
    PowAdd(|p| + 1, k);
    assert |p| + 1 + k == Width;
    assert q * pk == Pow36(Width);
    BelowTop(hi, q, pk, Value(s), Pow36(Width));
  }

  lemma BelowTop(hi: int, q: int, pk: int, v: int, top: int)
    requires 1 <= pk && hi <= q - 2
    requires v == hi * pk + pk - 1 && top == q * pk
    ensures v < top - 1
  {
    var d := q - 2 - hi;
    NonNegProduct(d, pk);
    Distribute(hi, 2 + d, pk);
    Distribute(2, d, pk);
    assert q * pk == hi * pk + 2 * pk + d * pk;
  }

  lemma NonNegProduct(a: int, b: int)
    requires 0 <= a && 0 <= b
    ensures 0 <= a * b
  {
  }

  lemma Distribute(a: int, b: int, c: int)
    ensures (a + b) * c == a * c + b * c
  {
  }

  lemma {:induction false} PowAdd(m: nat, k: nat)
    ensures Pow36(m) * Pow36(k) == Pow36(m + k)
  {
    if k > 0 {
      PowAdd(m, k - 1);
      assert Pow36(m) * Pow36(k) == Pow36(m) * (36 * Pow36(k - 1));
      assert Pow36(m) * (36 * Pow36(k - 1)) == 36 * (Pow36(m) * Pow36(k - 1));
    }
  }

  /** The only valid counter that overflows is the all-'Z' one, and it resets to all '0'. */
  lemma OverflowAtMax(s: seq<char>)
    requires |s| == Width && AllDigits(s)
    ensures CarryError(s) == Some(Base36Overflow) <==> Value(s) == MaxValue
    ensures CarryError(s) == Some(Base36Overflow) ==> Carried(s) == Zeros(Width)
    ensures CarryError(s) != Some(InvalidDigit)
  {
    if TrailingZs(s) < |s| {
      NotAllZsBelowMax(s);
    }
    if TrailingZs(s) == |s| {
      ValueZs(s);
    }
  }

  /** Equal-length digit strings with the same value are equal, so distinct values mean distinct ids. */
  lemma {:induction false} ValueInjective(a: seq<char>, b: seq<char>)
    requires |a| == |b| && AllDigits(a) && AllDigits(b)
    requires Value(a) == Value(b)
    ensures a == b
  {
    if a != [] {
      var a', b' := a[..|a| - 1], b[..|b| - 1];
      var da, db := DigitValue(a[|a| - 1]), DigitValue(b[|b| - 1]);
      DivMod36(Value(a'), da, Value(b'), db);
      ValueInjective(a', b');
      DigitValueInjective(a[|a| - 1], b[|b| - 1]);
      assert a == a' + [a[|a| - 1]] && b == b' + [b[|b| - 1]];
    }
  }

  lemma DivMod36(x: nat, dx: nat, y: nat, dy: nat)
    requires dx < 36 && dy < 36 && x * 36 + dx == y * 36 + dy
    ensures x == y && dx == dy
  {
    assert (x - y) * 36 == dy - dx;
  }

  lemma DigitValueInjective(c: char, d: char)
    requires IsDigit(c) && IsDigit(d) && DigitValue(c) == DigitValue(d)
    ensures c == d
  {
  }

  /** A fresh counter starts at "000000000000" and its first increment gives "000000000001". */
  lemma FirstIncrement()
    ensures Value(Zeros(Width)) == 0
    ensures Carried(Zeros(Width)) == "000000000001" && CarryError(Zeros(Width)) == None
  {
    ValueZeros(Width);
    var z := Zeros(Width);
    TrailingZsAt(z, Width - 1);
    assert z[..Width - 1] + [Succ('0')] + Zeros(0) == "000000000001";
  }
}
