/**
  Python's `str(n)` on integers, which the application uses in two places:
  the status code in a fetch error message and the index in a draft key
  `f"blog_{i}"`. Parsing the text back is the partner that shows no two
  integers share a rendering.
 */
module Decimal {
  import opened Wrappers

  predicate IsDigit(c: char) {
    '0' <= c <= '9'
  }

  predicate AllDigits(s: string) {
    forall k :: 0 <= k < |s| ==> IsDigit(s[k])
  }

  function DigitChar(d: nat): (c: char)
    requires d < 10
    ensures IsDigit(c) && c as int - '0' as int == d
  {
    ('0' as int + d) as char
  }

  function DigitValue(c: char): (d: nat)
    requires IsDigit(c)
  {
    c as int - '0' as int
  }

  /** `str(n)` for a non-negative `n`: the decimal digits, most significant
      first, with no leading zero. */
  function NatToString(n: nat): (s: string)
    ensures Canonical(s)
    ensures s[0] == '0' ==> n == 0
  {
    if n < 10 then [DigitChar(n)] else NatToString(n / 10) + [DigitChar(n % 10)]
  }

  /** The number a string of decimal digits denotes. */
  /** A decimal numeral as `str` writes it: at least one digit, and a leading
      zero only in `"0"` itself. */
  predicate Canonical(s: string) {
    |s| >= 1 && AllDigits(s) && (s[0] == '0' ==> |s| == 1)
  }

  function DigitsValue(s: string): nat
    requires AllDigits(s)
  {
    if s == [] then 0 else DigitsValue(s[..|s| - 1]) * 10 + DigitValue(s[|s| - 1])
  }

  lemma {:induction false} DigitsValueOfNatToString(n: nat)
    ensures DigitsValue(NatToString(n)) == n
  {
    var s := NatToString(n);
    if n < 10 {
      assert s[..|s| - 1] == [];
    } else {
      assert s[..|s| - 1] == NatToString(n / 10);
      DigitsValueOfNatToString(n / 10);
    }
  }

  /** A numeral that does not start with `'0'` denotes a positive number. */
  lemma {:induction false} DigitsValuePositive(t: string)
    requires |t| >= 1 && AllDigits(t) && t[0] != '0'
    ensures DigitsValue(t) >= 1
    decreases |t|
  {
    if |t| > 1 {
      DigitsValuePositive(t[..|t| - 1]);
    }
  }

  /** Every canonical numeral is what `str` writes for the number it denotes,
      so printing and reading digits are inverse in both directions. */
  lemma {:induction false} NatToStringOfDigitsValue(t: string)
    requires Canonical(t)
    ensures NatToString(DigitsValue(t)) == t
    decreases |t|
  {
    if |t| > 1 {
      var init := t[..|t| - 1];
      assert Canonical(init);
      DigitsValuePositive(init);
      NatToStringOfDigitsValue(init);
      var n := DigitsValue(t);
      assert n / 10 == DigitsValue(init) && n % 10 == DigitValue(t[|t| - 1]);
      assert t == init + [t[|t| - 1]];
    }
  }

  /** Distinct naturals render as distinct strings. */
  lemma NatToStringInjective(m: nat, n: nat)
    ensures NatToString(m) == NatToString(n) ==> m == n
  {
    DigitsValueOfNatToString(m);
    DigitsValueOfNatToString(n);
  }

  /** Python's `str(i)` for any integer: a minus sign before the digits of a
      negative number. */
  function IntToString(i: int): (s: string)
    ensures |s| >= 1
    ensures s[0] == '-' <==> i < 0
    ensures i >= 0 ==> Canonical(s) && DigitsValue(s) == i
    ensures i < 0 ==> Canonical(s[1..]) && s[1..] != "0" && DigitsValue(s[1..]) == -i
  {
    var s := if i < 0 then "-" + NatToString(-i) else NatToString(i);
    DigitsValueOfNatToString(if i < 0 then -i else i);
    assert i < 0 ==> s[1..] == NatToString(-i);
    s
  }

  /** Reads a number in exactly the form `IntToString` writes: an optional
      minus sign before a canonical numeral, and no `"-0"`. Anything else,
      leading zeros included, is not a number. */
  function ParseInt(s: string): (r: Option<int>)
    ensures r.Some? ==> IntToString(r.value) == s
  {
    if |s| >= 2 && s[0] == '-' && Canonical(s[1..]) && s[1..] != "0" then
      NatToStringOfDigitsValue(s[1..]);
      var n := DigitsValue(s[1..]);
      DigitsValuePositive(s[1..]);
      assert s == "-" + NatToString(n);
      Some(-(n as int))
    else if Canonical(s) then
      NatToStringOfDigitsValue(s);
      Some(DigitsValue(s))
    else None
  }

  lemma ParseIntToString(i: int)
    ensures ParseInt(IntToString(i)) == Some(i)
  {
    var s := IntToString(i);
    if i < 0 {
      assert s[1..] == NatToString(-i);
      DigitsValueOfNatToString(-i);
    } else {
      DigitsValueOfNatToString(i);
    }
  }

  /** Distinct integers render as distinct strings. */
  lemma IntToStringInjective(i: int, j: int)
    ensures IntToString(i) == IntToString(j) ==> i == j
  {
    ParseIntToString(i);
    ParseIntToString(j);
  }
}
