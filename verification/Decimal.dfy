/** Decimal numerals as `strconv` writes and reads them, and the order the kick scripts put on them. */
module Decimal {
  import opened Wrappers

  predicate IsDigit(c: char) { '0' <= c <= '9' }

  predicate AllDigits(s: string) { forall i :: 0 <= i < |s| ==> IsDigit(s[i]) }

  function DigitValue(c: char): (d: nat)
    requires IsDigit(c)
    ensures d < 10
  {
    c as int - '0' as int
  }

  /** `strconv.FormatUint(n, 10)`. */
  function Digits(n: nat): (s: string)
    ensures |s| > 0 && AllDigits(s)
  {
    if n < 10 then [('0' as int + n) as char]
    else Digits(n / 10) + [('0' as int + n % 10) as char]
  }

  function Value(s: string): nat
    requires AllDigits(s)
  {
    if s == [] then 0 else 10 * Value(s[..|s| - 1]) + DigitValue(s[|s| - 1])
  }

  lemma {:induction false} ValueOfDigits(n: nat)
    ensures Value(Digits(n)) == n
  {
    if n < 10 {
      assert Digits(n)[..0] == [];
    } else {
      ValueOfDigits(n / 10);
      assert Digits(n)[..|Digits(n)| - 1] == Digits(n / 10);
    }
  }

  /** `strconv.Itoa`. */
  function Itoa(n: int): string {
    if n < 0 then "-" + Digits(-n) else Digits(n)
  }

  /** The value part of `strconv.Atoi`, whose error every caller modelled here drops:
      0 for a malformed numeral, the nearest bound for one out of range. */
  function Atoi(s: string): int {
    var signed := s != [] && (s[0] == '-' || s[0] == '+');
    var digits := if signed then s[1..] else s;
    if digits == [] || !AllDigits(digits) then 0
    else if signed && s[0] == '-' then
      if Value(digits) > MAX_INT64 + 1 then -MAX_INT64 - 1 else 0 - Value(digits)
    else
      if Value(digits) > MAX_INT64 then MAX_INT64 else Value(digits)
  }

  /** `strconv.Atoi` succeeds: a numeral of one or more digits whose value fits. */
  predicate AtoiOk(s: string) {
    var signed := s != [] && (s[0] == '-' || s[0] == '+');
    var digits := if signed then s[1..] else s;
    digits != [] && AllDigits(digits) && Value(digits) <= if signed && s[0] == '-' then MAX_INT64 + 1 else MAX_INT64
  }

  lemma AtoiOkDigits(n: nat)
    requires n <= MAX_INT64
    ensures AtoiOk(Digits(n))
  {
    ValueOfDigits(n);
    assert IsDigit(Digits(n)[0]);
  }

  /** The value part of `strconv.ParseUint(s, 10, 64)`. */
  function ParseUint(s: string): nat {
    if s == [] || !AllDigits(s) then 0
    else if Value(s) > MAX_UINT64 then MAX_UINT64
    else Value(s)
  }

  lemma AtoiOfDigits(n: nat)
    requires n <= MAX_INT64
    ensures Atoi(Digits(n)) == n
  {
    ValueOfDigits(n);
    assert IsDigit(Digits(n)[0]);
  }

  lemma AtoiOfMinus(n: nat)
    requires n <= MAX_INT64 + 1
    ensures Atoi("-" + Digits(n)) == 0 - n
  {
    ValueOfDigits(n);
    assert ("-" + Digits(n))[1..] == Digits(n);
  }

  lemma AtoiOfItoa(n: int)
    requires -MAX_INT64 - 1 <= n <= MAX_INT64
    ensures Atoi(Itoa(n)) == n
  {
    if n < 0 { AtoiOfMinus(-n); } else { AtoiOfDigits(n); }
  }

  /** Lua's `a > b` on strings of equal length (byte-wise, in Redis's C locale). */
  predicate LexGreater(a: string, b: string)
    requires |a| == |b|
  {
    a != [] && (a[0] > b[0] || (a[0] == b[0] && LexGreater(a[1..], b[1..])))
  }

  /** `newerThan` of the kick script: longer, or as long and lexicographically greater. */
  predicate NewerThan(a: string, b: string) {
    |a| > |b| || (|a| == |b| && LexGreater(a, b))
  }

  lemma {:induction false} LexGreaterSnoc(a: string, b: string, x: char, y: char)
    requires |a| == |b|
    ensures LexGreater(a + [x], b + [y]) <==> LexGreater(a, b) || (a == b && x > y)
  {
    if a != [] {
      LexGreaterSnoc(a[1..], b[1..], x, y);
      assert (a + [x])[1..] == a[1..] + [x] && (b + [y])[1..] == b[1..] + [y];
      assert a == [a[0]] + a[1..] && b == [b[0]] + b[1..];
    }
  }

  lemma NewerThanSnoc(a: string, b: string, x: char, y: char)
    ensures NewerThan(a + [x], b + [y]) <==> NewerThan(a, b) || (a == b && x > y)
  {
    if |a| == |b| { LexGreaterSnoc(a, b, x, y); }
  }

  /** Two canonical numerals are the same text exactly when they are the same number. */
  lemma DigitsInjective(m: nat, n: nat)
    ensures Digits(m) == Digits(n) <==> m == n
  {
    ValueOfDigits(m);
    ValueOfDigits(n);
  }

  lemma Tens(m: nat, n: nat)
    ensures m > n <==> m / 10 > n / 10 || (m / 10 == n / 10 && m % 10 > n % 10)
  {
  }

  /** The script compares kick versions as text; on canonical numerals that is numeric comparison. */
  lemma {:induction false} NewerThanIsNumeric(m: nat, n: nat)
    ensures NewerThan(Digits(m), Digits(n)) <==> m > n
  {
    if m < 10 && n < 10 {
      NewerThanSnoc([], [], ('0' as int + m) as char, ('0' as int + n) as char);
      assert Digits(m) == [] + Digits(m) && Digits(n) == [] + Digits(n);
    } else if m >= 10 && n >= 10 {
      NewerThanIsNumeric(m / 10, n / 10);
      DigitsInjective(m / 10, n / 10);
      NewerThanSnoc(Digits(m / 10), Digits(n / 10), ('0' as int + m % 10) as char, ('0' as int + n % 10) as char);
      Tens(m, n);
    }
  }
}
