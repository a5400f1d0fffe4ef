/** Decimal texts of integers: what `math/big` and `fmt` print, and what `big.Int.SetString(s, 10)` reads. */
module Decimal {
  import opened Wrappers

  function DigitChar(d: nat): (c: char)
    requires d < 10
    ensures '0' <= c <= '9' && DigitValue(c) == d
  {
    '0' + d as char
  }

  predicate IsDigit(c: char) {
    '0' <= c <= '9'
  }

  function DigitValue(c: char): (d: nat)
    requires IsDigit(c)
    ensures d < 10
  {
    c as nat - '0' as nat
  }

  function PrintNat(n: nat): (s: string)
    ensures AllDigits(s)
  {
    if n < 10 then [DigitChar(n)] else PrintNat(n / 10) + [DigitChar(n % 10)]
  }

  function Print(x: int): string {
    if x < 0 then "-" + PrintNat(-x) else PrintNat(x)
  }

  predicate AllDigits(s: string) {
    s != "" && forall i :: 0 <= i < |s| ==> IsDigit(s[i])
  }

  function Value(s: string): nat
    requires forall i :: 0 <= i < |s| ==> IsDigit(s[i])
  {
    if s == "" then 0 else 10 * Value(s[..|s| - 1]) + DigitValue(s[|s| - 1])
  }

  /** An optional sign, then one or more digits; nothing else is read. */
  function Parse(s: string): Option<int> {
    var signed := s != "" && (s[0] == '-' || s[0] == '+');
    var digits := if signed then s[1..] else s;
    if !AllDigits(digits) then None else
      var v: int := Value(digits);
      Some(if signed && s[0] == '-' then -v else v)
  }

  function PowerOfTen(n: nat): nat {
    if n == 0 then 1 else 10 * PowerOfTen(n - 1)
  }

  lemma TimesTen(x: int, p: int, y: int, d: int)
    ensures 10 * (x * p + y) + d == x * (10 * p) + (10 * y + d)
  {
  }

  /** Each place of a number stands for ten times the one after it. */
  lemma {:induction false} PlaceValues(a: string, b: string)
    requires forall i :: 0 <= i < |a| ==> IsDigit(a[i])
    requires forall i :: 0 <= i < |b| ==> IsDigit(b[i])
    ensures Value(a + b) == Value(a) * PowerOfTen(|b|) + Value(b)
    decreases |b|
  {
    if b == "" {
      assert a + b == a;
    } else {
      var front, last := b[..|b| - 1], b[|b| - 1];
      PlaceValues(a, front);
      assert (a + b)[..|a + b| - 1] == a + front && (a + b)[|a + b| - 1] == last;
      TimesTen(Value(a), PowerOfTen(|front|), Value(front), DigitValue(last));
    }
  }

  /** The ten digits stand for zero to nine. */
  lemma DigitValues(d: nat)
    requires d < 10
    ensures IsDigit("0123456789"[d]) && Value(["0123456789"[d]]) == d
  {
    assert Value([]) == 0;
    assert ["0123456789"[d]][..0] == [];
  }

  /** A text is read if and only if it is digits after at most one sign, and a minus sign negates their value. */
  lemma ParsesIff(s: string)
    ensures Parse(s).Some? <==> AllDigits(s) || (s != "" && s[0] in "+-" && AllDigits(s[1..]))
    ensures AllDigits(s) ==> var v: int := Value(s); Parse(s) == Parse("+" + s) == Some(v) && Parse("-" + s) == Some(-v)
  {
    hide Value;
    assert ("+" + s)[1..] == s && ("-" + s)[1..] == s;
  }

  lemma {:induction false} ValueOfPrintNat(n: nat)
    ensures Value(PrintNat(n)) == n
    ensures n > 0 ==> PrintNat(n)[0] != '0'
  {
    if n >= 10 {
      ValueOfPrintNat(n / 10);
      var s := PrintNat(n);
      assert s[..|s| - 1] == PrintNat(n / 10);
    }
  }

  /** Printing and parsing back gives the same number. */
  lemma ParseOfPrint(x: int)
    ensures Parse(Print(x)) == Some(x)
  {
    ValueOfPrintNat(if x < 0 then -x else x);
    hide PrintNat, Value;
    if x < 0 {
      assert Print(x)[1..] == PrintNat(-x);
    }
  }

  /** Zero is the only number printed as "0". */
  lemma PrintsZeroIff(x: int)
    ensures Print(x) == "0" <==> x == 0
  {
    ParseOfPrint(x);
    ParseOfPrint(0);
  }
}
