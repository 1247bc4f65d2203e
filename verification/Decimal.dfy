/** Decimal numerals. */
module Decimal {
  import opened Wrappers

  predicate IsDigit(c: char) { '0' <= c <= '9' }

  function DigitChar(d: nat): (c: char)
    requires d < 10
    ensures IsDigit(c) && DigitValue(c) == d
  {
    '0' + d as char
  }

  function DigitValue(c: char): nat
    requires IsDigit(c)
  {
    (c - '0') as nat
  }

  /** The numeral of n, without leading zeros. */
  function Print(n: nat): (r: string)
    ensures r != "" && forall i :: 0 <= i < |r| ==> IsDigit(r[i])
    ensures |r| > 1 ==> r[0] != '0'
  {
    if n < 10 then [DigitChar(n)] else Print(n / 10) + [DigitChar(n % 10)]
  }

  predicate AllDigits(s: string) {
    forall i :: 0 <= i < |s| ==> IsDigit(s[i])
  }

  function Value(s: string): nat
    requires AllDigits(s)
  {
    if s == "" then 0 else 10 * Value(s[..|s| - 1]) + DigitValue(s[|s| - 1])
  }

  lemma {:induction false} ValuePrint(n: nat)
    ensures Value(Print(n)) == n
  {
    if n >= 10 {
      ValuePrint(n / 10);
      assert Print(n)[..|Print(n)| - 1] == Print(n / 10);
    }
  }

  lemma {:induction false} PrintValue(s: string)
    requires s != "" && AllDigits(s) && (|s| > 1 ==> s[0] != '0')
    ensures Print(Value(s)) == s && (|s| > 1 ==> Value(s) >= 10)
  {
    var n := |s| - 1;
    if n == 0 {
      assert s == [s[0]] && s[..0] == "";
      assert Value(s) == DigitValue(s[0]);
    } else {
      PrintValue(s[..n]);
      LeadingDigit(s[..n]);
      assert s == s[..n] + [s[n]];
    }
  }

  lemma LeadingDigit(s: string)
    requires s != "" && AllDigits(s) && s[0] != '0' && Print(Value(s)) == s
    ensures Value(s) > 0
  {
  }

  /** The last digit is the units, and the digits before it are those of the tens. */
  lemma Numerals(n: nat)
    ensures n < 10 ==> |Print(n)| == 1 && Print(n)[0] as int == '0' as int + n
    ensures n >= 10 ==> Print(n) == Print(n / 10) + Print(n % 10)
  {
  }

  /** How many digits s begins with. */
  function DigitCount(s: string): (k: nat)
    ensures k <= |s| && AllDigits(s[..k]) && (k < |s| ==> !IsDigit(s[k]))
  {
    if s == "" || !IsDigit(s[0]) then 0
    else
      var k := 1 + DigitCount(s[1..]);
      assert forall i :: 1 <= i < k ==> s[i] == s[1..][i - 1];
      k
  }

  lemma {:induction false} DigitCountIs(digits: string, rest: string)
    requires AllDigits(digits) && (rest == "" || !IsDigit(rest[0]))
    ensures DigitCount(digits + rest) == |digits|
  {
    if digits == "" {
      assert digits + rest == rest;
    } else {
      assert (digits + rest)[1..] == digits[1..] + rest;
      DigitCountIs(digits[1..], rest);
    }
  }
}
