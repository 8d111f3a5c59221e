/** Decimal rendering of integers, as Python's `f"{n}"` does it, and its inverse. */
module Text {
  import opened Wrappers

  predicate IsDigit(c: char) {
    '0' <= c <= '9'
  }

  predicate AllDigits(s: string) {
    forall i :: 0 <= i < |s| ==> IsDigit(s[i])
  }

  function DigitChar(d: nat): (c: char)
    requires d < 10
    ensures IsDigit(c) && c as int - '0' as int == d
  {
    ('0' as int + d) as char
  }

  /** The decimal digits of `n`, most significant first, without leading zeros. */
  function NatToString(n: nat): (s: string)
    ensures |s| >= 1 && AllDigits(s)
    ensures n >= 10 <==> |s| >= 2
    ensures |s| >= 2 ==> s[0] != '0'
    decreases n
  {
    if n < 10 then [DigitChar(n)] else NatToString(n / 10) + [DigitChar(n % 10)]
  }

  /** `str(i)` for a Python int. */
  function IntToString(i: int): (s: string)
    ensures |s| >= 1
    ensures i < 0 <==> s[0] == '-'
  {
    if i < 0 then "-" + NatToString(-i) else NatToString(i)
  }

  /** Python's `int(x)` on a float: truncation toward zero. */
  function Trunc(x: real): (i: int)
    ensures x >= 0.0 ==> i as real <= x < i as real + 1.0
    ensures x < 0.0 ==> i as real - 1.0 < x <= i as real
  {
    if x >= 0.0 then x.Floor else -((-x).Floor)
  }

  /** The number a string of decimal digits denotes. */
  function DigitsValue(s: string): nat
    requires AllDigits(s)
  {
    if s == [] then 0 else DigitsValue(s[..|s| - 1]) * 10 + (s[|s| - 1] as int - '0' as int)
  }

  /** The number of leading decimal digits of `s`. */
  function DigitPrefixLength(s: string): (k: nat)
    ensures k <= |s| && AllDigits(s[..k])
    ensures k < |s| ==> !IsDigit(s[k])
  {
    if s == [] || !IsDigit(s[0]) then 0 else 1 + DigitPrefixLength(s[1..])
  }

  /** Reads a run of decimal digits off the front of `s`, returning its value and what follows. */
  function SplitDigits(s: string): Option<(nat, string)>
  {
    var k := DigitPrefixLength(s);
    if k == 0 then None else Some((DigitsValue(s[..k]), s[k..]))
  }

  /** Reads an optionally negative integer off the front of `s`, returning it and what follows. */
  function SplitInt(s: string): Option<(int, string)>
  {
    var neg := |s| > 0 && s[0] == '-';
    match SplitDigits(if neg then s[1..] else s)
    case None => None
    case Some((v, tail)) => var r: int := if neg then -(v as int) else v; Some((r, tail))
  }

  lemma {:induction false} NatToStringValue(n: nat)
    ensures DigitsValue(NatToString(n)) == n
    decreases n
  {
    if n >= 10 {
      var s := NatToString(n);
      NatToStringValue(n / 10);
      assert s[..|s| - 1] == NatToString(n / 10);
    }
  }

  lemma {:induction false} DigitPrefixOfDigits(d: string, rest: string)
    requires AllDigits(d)
    requires rest == [] || !IsDigit(rest[0])
    ensures DigitPrefixLength(d + rest) == |d|
    decreases |d|
  {
    if d == [] {
      assert d + rest == rest;
    } else {
      assert (d + rest)[1..] == d[1..] + rest;
      DigitPrefixOfDigits(d[1..], rest);
    }
  }

  /** Reading back a rendered natural number gives the number and leaves what followed it. */
  lemma SplitDigitsToString(n: nat, rest: string)
    requires rest == [] || !IsDigit(rest[0])
    ensures SplitDigits(NatToString(n) + rest) == Some((n, rest))
  {
    var d := NatToString(n);
    var body := d + rest;
    DigitPrefixOfDigits(d, rest);
    assert body[..|d|] == d && body[|d|..] == rest;
    NatToStringValue(n);
  }

  /** Reading back a rendered integer gives the integer and leaves what followed it. */
  lemma SplitIntToString(i: int, rest: string)
    requires rest == [] || !IsDigit(rest[0])
    ensures SplitInt(IntToString(i) + rest) == Some((i, rest))
  {
    if i < 0 {
      var m: nat := -i;
      var s := "-" + (NatToString(m) + rest);
      assert IntToString(i) + rest == s;
      assert s[1..] == NatToString(m) + rest;
      SplitDigitsToString(m, rest);
    } else {
      var s := NatToString(i) + rest;
      assert IsDigit(s[0]);
      SplitDigitsToString(i, rest);
    }
  }
}
