/**
 * Decimal rendering of integers, as JavaScript's `Number.prototype.toString()`
 * produces it for a safe integer: an optional minus sign followed by the digits,
 * most significant first, without leading zeros. Users are keyed by this string
 * and the administrator is recognised by it.
 */
module Decimal {

  import opened Wrappers

  predicate IsDigit(c: char) {
    '0' <= c <= '9'
  }

  predicate AllDigits(s: string) {
    forall i :: 0 <= i < |s| ==> IsDigit(s[i])
  }

  function DigitChar(d: nat): (c: char)
    requires d < 10
    ensures IsDigit(c)
  {
    ('0' as int + d) as char
  }

  function DigitValue(c: char): (d: nat)
    requires IsDigit(c)
    ensures d < 10 && DigitChar(d) == c
  {
    c as int - '0' as int
  }

  /** The digits of `n`, most significant first. */
  function Digits(n: nat): (s: string)
    ensures |s| > 0 && AllDigits(s)
    ensures |s| > 1 ==> s[0] != '0'
  {
    if n < 10 then [DigitChar(n)] else Digits(n / 10) + [DigitChar(n % 10)]
  }

  /** The value of a string of digits. */
  function ParseDigits(s: string): nat
    requires AllDigits(s)
  {
    if s == [] then 0 else ParseDigits(s[..|s| - 1]) * 10 + DigitValue(s[|s| - 1])
  }

  lemma {:induction false} ParseDigitsInverse(n: nat)
    ensures ParseDigits(Digits(n)) == n
  {
    if n >= 10 {
      var s := Digits(n);
      assert s[..|s| - 1] == Digits(n / 10);
      ParseDigitsInverse(n / 10);
    }
  }

  /** `id.toString()` for an integer identity. */
  function IdString(id: int): (s: string)
    ensures |s| > 0
    ensures s[0] == '-' <==> id < 0
  {
    if id < 0 then "-" + Digits(-id) else Digits(id)
  }

  /** Reads back what IdString writes; None for anything else. */
  function ParseId(s: string): Option<int> {
    if |s| > 1 && s[0] == '-' && AllDigits(s[1..]) then
      var magnitude: int := ParseDigits(s[1..]); Some(-magnitude)
    else if |s| > 0 && AllDigits(s) then Some(ParseDigits(s))
    else None
  }

  lemma IdStringRoundTrip(id: int)
    ensures ParseId(IdString(id)) == Some(id)
  {
    var s := IdString(id);
    if id < 0 {
      assert s[1..] == Digits(-id);
      ParseDigitsInverse(-id);
    } else {
      ParseDigitsInverse(id);
    }
  }

  /** Distinct identities have distinct keys. */
  lemma IdStringInjective(a: int, b: int)
    ensures IdString(a) == IdString(b) <==> a == b
  {
    if IdString(a) == IdString(b) {
      IdStringRoundTrip(a);
      IdStringRoundTrip(b);
    }
  }

}
