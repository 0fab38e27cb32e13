/**
  Decimal rendering of integers, as JavaScript prints a whole number inside a
  template literal or a string concatenation, together with the parser that
  inverts it.
 */
module Decimal {
  import opened Wrappers

  predicate IsDigit(c: char) {
    '0' <= c <= '9'
  }

  predicate AllDigits(s: string) {
    forall i :: 0 <= i < |s| ==> IsDigit(s[i])
  }

  function DigitChar(d: nat): (c: char)
    requires d < 10
    ensures IsDigit(c) && c as int - '0' as int == d
  {
    ('0' as int + d) as char
  }

  /** The digits of `n`, most significant first, with no leading zero. */
  function Digits(n: nat): (s: string)
    ensures s != [] && AllDigits(s)
    ensures n < 10 <==> |s| == 1
  {
    if n < 10 then [DigitChar(n)] else Digits(n / 10) + [DigitChar(n % 10)]
  }

  /** The number a string of digits denotes. */
  function ValueOf(s: string): nat
    requires AllDigits(s)
  {
    if s == [] then 0 else 10 * ValueOf(s[..|s| - 1]) + (s[|s| - 1] as int - '0' as int)
  }

  function ParseNat(s: string): (r: Option<nat>)
    ensures r.Some? <==> s != [] && AllDigits(s)
  {
    if s != [] && AllDigits(s) then Some(ValueOf(s)) else None
  }

  lemma {:induction false} ValueOfDigits(n: nat)
    ensures ValueOf(Digits(n)) == n
  {
    if n >= 10 {
      var front := Digits(n / 10);
      var s := front + [DigitChar(n % 10)];
      assert s[..|s| - 1] == front;
      ValueOfDigits(n / 10);
    }
  }

  /** Rendering a natural number and parsing it back gives the number. */
  lemma ParseDigits(n: nat)
    ensures ParseNat(Digits(n)) == Some(n)
  {
    ValueOfDigits(n);
  }

  /** `String(i)` for a whole number `i`. */
  function IntToString(i: int): (s: string)
    ensures s != []
  {
    if i < 0 then "-" + Digits(-i) else Digits(i)
  }

  /** Reads an optional minus sign followed by decimal digits. */
  function ParseInt(s: string): Option<int> {
    if s != [] && s[0] == '-' then
      match ParseNat(s[1..])
      case Some(n) => Some(-(n as int))
      case None => None
    else
      match ParseNat(s)
      case Some(n) => Some(n)
      case None => None
  }

  lemma ParseIntToString(i: int)
    ensures ParseInt(IntToString(i)) == Some(i)
  {
    if i < 0 {
      var s := "-" + Digits(-i);
      assert s[1..] == Digits(-i);
      ParseDigits(-i);
    } else {
      ParseDigits(i);
    }
  }
}
