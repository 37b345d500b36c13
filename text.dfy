/** Character-level string helpers: Python's `str.replace` on one character and `str(int)`. */
module Text {

  /** `s.replace(a, b)` for single characters: every occurrence of `a` becomes `b`. */
  function ReplaceChar(s: string, a: char, b: char): (r: string)
    ensures |r| == |s|
    ensures forall i :: 0 <= i < |s| ==> r[i] == (if s[i] == a then b else s[i])
  {
    if s == [] then [] else [if s[0] == a then b else s[0]] + ReplaceChar(s[1..], a, b)
  }

  /** `s.replace(a, '')` for one character: every occurrence of `a` is dropped. */
  function RemoveChar(s: string, a: char): (r: string)
    ensures a !in r
    ensures |r| <= |s|
  {
    if s == [] then [] else (if s[0] == a then [] else [s[0]]) + RemoveChar(s[1..], a)
  }

  lemma {:induction false} RemoveCharConcat(x: string, y: string, a: char)
    ensures RemoveChar(x + y, a) == RemoveChar(x, a) + RemoveChar(y, a)
  {
    if x == [] {
      assert x + y == y;
    } else {
      var head := if x[0] == a then [] else [x[0]];
      assert (x + y)[0] == x[0];
      assert (x + y)[1..] == x[1..] + y;
      assert RemoveChar(x + y, a) == head + RemoveChar(x[1..] + y, a);
      RemoveCharConcat(x[1..], y, a);
      assert RemoveChar(x, a) == head + RemoveChar(x[1..], a);
    }
  }

  lemma {:induction false} RemoveCharAbsent(x: string, a: char)
    requires a !in x
    ensures RemoveChar(x, a) == x
  {
    if x != [] {
      RemoveCharAbsent(x[1..], a);
    }
  }

  /** After the replacement no `a` is left, and replacing again changes nothing. */
  lemma ReplaceCharRemovesAll(s: string, a: char, b: char)
    requires a != b
    ensures a !in ReplaceChar(s, a, b)
    ensures ReplaceChar(ReplaceChar(s, a, b), a, b) == ReplaceChar(s, a, b)
  {
  }

  /** A string without `a` is left as it is. */
  lemma ReplaceCharAbsent(s: string, a: char, b: char)
    requires a !in s
    ensures ReplaceChar(s, a, b) == s
  {
  }

  lemma {:induction false} ReplaceCharConcat(x: string, y: string, a: char, b: char)
    ensures ReplaceChar(x + y, a, b) == ReplaceChar(x, a, b) + ReplaceChar(y, a, b)
  {
    if x == [] {
      assert x + y == y;
    } else {
      assert (x + y)[1..] == x[1..] + y;
      ReplaceCharConcat(x[1..], y, a, b);
    }
  }

  predicate IsDigit(c: char) {
    '0' <= c <= '9'
  }

  predicate AllDigits(s: string) {
    forall i :: 0 <= i < |s| ==> IsDigit(s[i])
  }

  function DigitChar(d: nat): (c: char)
    requires d < 10
    ensures IsDigit(c)
  {
    "0123456789"[d]
  }

  function DigitValue(c: char): (d: nat)
    requires IsDigit(c)
    ensures d < 10
  {
    (c as int - '0' as int) as nat
  }

  /** `str(n)` for a natural number: decimal digits, no leading zero. */
  function NatToDecimal(n: nat): (r: string)
    ensures |r| >= 1 && AllDigits(r)
    ensures r[0] == '0' ==> n == 0
    decreases n
  {
    if n < 10 then [DigitChar(n)] else NatToDecimal(n / 10) + [DigitChar(n % 10)]
  }

  /** `int(s)` for a string of decimal digits. */
  function DecimalValue(s: string): nat
    requires AllDigits(s)
  {
    if s == [] then 0 else DecimalValue(s[..|s| - 1]) * 10 + DigitValue(s[|s| - 1])
  }

  /** Reading back what `str(n)` printed gives `n`. */
  lemma {:induction false} DecimalRoundTrip(n: nat)
    ensures DecimalValue(NatToDecimal(n)) == n
    decreases n
  {
    var r := NatToDecimal(n);
    if n < 10 {
      assert r[..|r| - 1] == [];
    } else {
      assert r[..|r| - 1] == NatToDecimal(n / 10);
      DecimalRoundTrip(n / 10);
    }
  }

  /**
   * `str(i)` for any integer: a leading `-` exactly for negative values, then
   * digits only, so the text never holds `_`.
   */
  function IntToDecimal(i: int): (r: string)
    ensures SignedDecimal(r)
    ensures r[0] == '-' <==> i < 0
    ensures '_' !in r
  {
    var r := if i < 0 then "-" + NatToDecimal(-i) else NatToDecimal(i);
    assert forall k :: 0 <= k < |r| ==> r[k] == '-' || IsDigit(r[k]);
    r
  }

  /** Decimal text with an optional leading `-`: digits after the first character, and at least one digit. */
  predicate SignedDecimal(s: string) {
    && |s| >= 1 && AllDigits(s[1..])
    && (IsDigit(s[0]) || (s[0] == '-' && |s| >= 2))
  }

  /** `int(s)` for signed decimal text. */
  function SignedValue(s: string): int
    requires SignedDecimal(s)
  {
    if s[0] == '-' then 0 - DecimalValue(s[1..]) as int else DecimalValue(s)
  }

  /** A `-` in front of decimal digits reads back as their negated value. */
  lemma Negated(d: string)
    requires |d| >= 1 && AllDigits(d)
    ensures SignedDecimal("-" + d) && SignedValue("-" + d) == 0 - DecimalValue(d) as int
  {
    assert ("-" + d)[1..] == d;
  }

  /** Decimal digits without a sign read back as their value. */
  lemma Unsigned(d: string)
    requires |d| >= 1 && AllDigits(d)
    ensures SignedDecimal(d) && SignedValue(d) == DecimalValue(d) as int
  {
  }

  /** Reading back `-` followed by `str(n)` gives `-n`. */
  lemma NegatedRoundTrip(n: nat)
    requires n > 0
    ensures SignedDecimal("-" + NatToDecimal(n)) && SignedValue("-" + NatToDecimal(n)) == 0 - n as int
  {
    Negated(NatToDecimal(n));
    DecimalRoundTrip(n);
  }

  /** Reading back what `str(i)` printed gives `i`, for negative values too. */
  lemma {:induction false} IntDecimalRoundTrip(i: int)
    ensures SignedValue(IntToDecimal(i)) == i
  {
    if i < 0 {
      NegatedRoundTrip(-i);
      assert IntToDecimal(i) == "-" + NatToDecimal(-i);
    } else {
      Unsigned(NatToDecimal(i));
      DecimalRoundTrip(i);
      assert IntToDecimal(i) == NatToDecimal(i);
    }
  }
}
