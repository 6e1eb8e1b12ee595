/** Decimal text and 64-bit words, on values. */
module Decimal {
  import opened Prelude

  const WORD64: nat := 0x1_0000_0000_0000_0000
  const HALF64: nat := 0x8000_0000_0000_0000

  type i64 = x: int | -0x8000_0000_0000_0000 <= x < 0x8000_0000_0000_0000
  type u64 = x: int | 0 <= x < 0x1_0000_0000_0000_0000

  /** The conversions between signed and unsigned 64-bit values. */
  function ToUnsigned(x: i64): u64 {
    x % WORD64
  }

  function ToSigned(x: u64): i64 {
    if x < HALF64 then x else x - WORD64
  }

  /** Two's complement negation, which leaves the smallest value as it is. */
  function Negate(x: i64): i64 {
    ToSigned((WORD64 - ToUnsigned(x)) % WORD64)
  }

  predicate IsDigit(c: char) {
    '0' <= c <= '9'
  }

  function DigitChar(d: nat): (c: char)
    requires d < 10
    ensures IsDigit(c) && DigitValue(c) == d
  {
    '0' + d as char
  }

  function DigitValue(c: char): (d: nat)
    requires IsDigit(c)
    ensures d < 10
  {
    c as int - '0' as int
  }

  /** The ten digits, and their values. */
  lemma DigitTable(d: nat)
    requires d < 10
    ensures DigitChar(d) == "0123456789"[d] && DigitValue("0123456789"[d]) == d
  {
  }

  function Digits(n: nat): (s: string)
    ensures s != []
  {
    if n < 10 then [DigitChar(n)] else Digits(n / 10) + [DigitChar(n % 10)]
  }

  function Magnitude(x: int): nat {
    if x < 0 then 0 - x else x
  }

  lemma DigitsUnfold(n: nat)
    ensures Digits(n) == (if n < 10 then [] else Digits(n / 10)) + [DigitChar(n % 10)]
  {
  }

  /** Decimal text: digits without leading zeros, after a minus sign if negative. */
  function Show(x: int): string {
    (if x < 0 then ['-'] else []) + Digits(Magnitude(x))
  }

  predicate AllDigits(s: string) {
    forall i :: 0 <= i < |s| ==> IsDigit(s[i])
  }

  function Value(s: string): nat
    requires AllDigits(s)
  {
    if s == [] then 0 else 10 * Value(s[..|s| - 1]) + DigitValue(s[|s| - 1])
  }

  /** Reads decimal text back, if it is one. */
  function Parse(s: string): Option<int> {
    if s != [] && AllDigits(s) then Some(Value(s))
    else if |s| > 1 && s[0] == '-' && AllDigits(s[1..]) then Some(0 - Value(s[1..]))
    else None
  }

  /** No leading zero, and no minus sign before a zero. */
  predicate Canonical(s: string) {
    || (s != [] && AllDigits(s) && (|s| > 1 ==> s[0] != '0'))
    || (|s| > 1 && s[0] == '-' && AllDigits(s[1..]) && s[1] != '0')
  }

  lemma {:induction false} DigitsParse(n: nat)
    ensures AllDigits(Digits(n)) && Value(Digits(n)) == n
    ensures n > 0 ==> Digits(n)[0] != '0'
    ensures n == 0 ==> Digits(n) == "0"
  {
    if n >= 10 {
      DigitsParse(n / 10);
      var s := Digits(n);
      assert s[..|s| - 1] == Digits(n / 10);
    } else {
      var s := Digits(n);
      assert s[..0] == [];
    }
  }

  lemma ShowParses(x: int)
    ensures Parse(Show(x)) == Some(x) && Canonical(Show(x)) && (x < 0 <==> Show(x)[0] == '-')
  {
    DigitsParse(Magnitude(x));
    var s := Show(x);
    if x < 0 {
      assert s[1..] == Digits(Magnitude(x));
      assert s[0] == '-' && !IsDigit(s[0]) && s[1] == s[1..][0];
    } else {
      assert s == Digits(x);
    }
  }

  lemma {:induction false} ValueDetermines(s: string)
    requires s != [] && AllDigits(s) && (|s| > 1 ==> s[0] != '0')
    ensures Digits(Value(s)) == s
    ensures s[0] != '0' ==> Value(s) > 0
    decreases |s|
  {
    var t, c := s[..|s| - 1], s[|s| - 1];
    if t == [] {
      assert s == [c];
      assert Value(t) == 0;
    } else {
      ValueDetermines(t);
      assert s == t + [c];
    }
  }

  /** Show is the only canonical way to write a value. */
  lemma CanonicalIsShow(s: string)
    requires Canonical(s)
    ensures Parse(s).Some? && s == Show(Parse(s).value)
  {
    if s[0] == '-' {
      ValueDetermines(s[1..]);
      assert s == ['-'] + s[1..];
    } else {
      ValueDetermines(s);
      assert [] + s == s;
    }
  }

  function Pow10(k: nat): (p: nat)
    ensures p > 0
  {
    if k == 0 then 1 else 10 * Pow10(k - 1)
  }

  /** A number has at most `k` digits exactly when it is below 10^k. */
  lemma {:induction false} DigitCount(n: nat, k: nat)
    requires k > 0
    ensures |Digits(n)| <= k <==> n < Pow10(k)
  {
    if k == 1 {
      assert Pow10(1) == 10 * Pow10(0);
    } else if n >= 10 {
      DigitCount(n / 10, k - 1);
      var p := Pow10(k - 1);
      assert n / 10 < p <==> n < 10 * p;
    } else {
      assert Pow10(k) == 10 * Pow10(k - 1);
    }
  }

  const TEN_TO_18: int := 1_000_000_000_000_000_000

  lemma {:induction false} Pow10Of18()
    ensures Pow10(18) == TEN_TO_18 && Pow10(19) == 10 * TEN_TO_18
  {
    assert Pow10(6) == 1_000_000;
    Pow10Sum(6, 6);
    Pow10Sum(6, 12);
  }

  lemma {:induction false} Pow10Sum(a: nat, b: nat)
    ensures Pow10(a + b) == Pow10(a) * Pow10(b)
  {
    if a > 0 {
      Pow10Sum(a - 1, b);
      assert Pow10(a + b) == 10 * Pow10(a - 1 + b);
    }
  }

  /** No 64-bit value needs more than 20 characters, and exactly those at or
      below -10^18 need all 20. */
  lemma ShowFits(x: i64)
    ensures |Show(x)| <= 20
    ensures |Show(x)| == 20 <==> x <= -TEN_TO_18
    ensures |Digits(Magnitude(x))| <= 19
  {
    var n := Magnitude(x);
    Pow10Of18();
    DigitCount(n, 18);
    DigitCount(n, 19);
  }

  /** Negating in two's complement when negative, then reading the word as
      unsigned, gives the magnitude of every value. */
  lemma MagnitudeOf(x: i64)
    ensures ToUnsigned(if x < 0 then Negate(x) else x) == Magnitude(x)
  {
  }

  lemma SignedRoundTrip(x: i64)
    ensures ToSigned(ToUnsigned(x)) == x
  {
  }
}
