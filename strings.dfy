/** String helpers the record builder relies on: Go's `strings.Contains` and
    the decimal rendering that `fmt.Sprintf("%v", n)` gives an integer. */
module Strings {

  predicate IsPrefix(p: string, s: string) {
    |p| <= |s| && s[..|p|] == p
  }

  /** `sub` starts at position `i` of `s`. */
  predicate OccursAt(s: string, sub: string, i: int) {
    0 <= i <= |s| - |sub| && s[i..i + |sub|] == sub
  }

  /** Go's `strings.Contains(s, sub)`: a plain substring search. */
  function Contains(s: string, sub: string): bool
    decreases |s|
  {
    if IsPrefix(sub, s) then true
    else if s == [] then false
    else Contains(s[1..], sub)
  }

  /** `Contains` holds exactly when `sub` occurs at some position of `s`. */
  lemma {:induction false} ContainsIffOccurs(s: string, sub: string)
    ensures Contains(s, sub) <==> exists i :: OccursAt(s, sub, i)
    decreases |s|
  {
    if IsPrefix(sub, s) {
      assert OccursAt(s, sub, 0);
    } else if s == [] {
    } else {
      ContainsIffOccurs(s[1..], sub);
      if exists i :: OccursAt(s, sub, i) {
        var i :| OccursAt(s, sub, i);
        if i > 0 {
          assert s[1..][i - 1..i - 1 + |sub|] == s[i..i + |sub|];
          assert OccursAt(s[1..], sub, i - 1);
        }
      }
      if exists i :: OccursAt(s[1..], sub, i) {
        var i :| OccursAt(s[1..], sub, i);
        assert s[1..][i..i + |sub|] == s[i + 1..i + 1 + |sub|];
        assert OccursAt(s, sub, i + 1);
      }
    }
  }

  /** A string that ends with `sub` also contains it. */
  lemma SuffixIsContained(s: string, sub: string)
    requires |sub| <= |s| && s[|s| - |sub|..] == sub
    ensures Contains(s, sub)
  {
    assert OccursAt(s, sub, |s| - |sub|);
    ContainsIffOccurs(s, sub);
  }

  predicate IsDigit(c: char) {
    '0' <= c <= '9'
  }

  predicate AllDigits(s: string) {
    forall i :: 0 <= i < |s| ==> IsDigit(s[i])
  }

  function DigitChar(d: nat): (c: char)
    requires d < 10
    ensures IsDigit(c) && (c as int) - ('0' as int) == d
  {
    (('0' as int) + d) as char
  }

  /** Decimal digits of `n`, most significant first, no leading zero. */
  function NatToString(n: nat): string
    decreases n
  {
    if n < 10 then [DigitChar(n)] else NatToString(n / 10) + [DigitChar(n % 10)]
  }

  /** `fmt.Sprintf("%v", i)` for an integer `i`: a minus sign before a negative value. */
  function IntToString(i: int): string {
    if i < 0 then "-" + NatToString(-i) else NatToString(i)
  }

  /** The value of a string of decimal digits (the inverse of `NatToString`). */
  function DigitsValue(s: string): nat
    requires AllDigits(s)
  {
    if s == [] then 0
    else DigitsValue(s[..|s| - 1]) * 10 + ((s[|s| - 1] as int) - ('0' as int))
  }

  /** `NatToString` gives a non-empty digit string that reads back as `n`. */
  lemma {:induction false} NatToStringRoundTrip(n: nat)
    ensures |NatToString(n)| > 0 && AllDigits(NatToString(n))
    ensures DigitsValue(NatToString(n)) == n
    decreases n
  {
    var s := NatToString(n);
    if n >= 10 {
      NatToStringRoundTrip(n / 10);
      assert s[..|s| - 1] == NatToString(n / 10);
    }
  }

  lemma NatToStringInjective(m: nat, n: nat)
    requires NatToString(m) == NatToString(n)
    ensures m == n
  {
    NatToStringRoundTrip(m);
    NatToStringRoundTrip(n);
  }

  /** Number of decimal digits at the end of `s`. */
  function TrailingDigits(s: string): (k: nat)
    ensures k <= |s|
  {
    if s == [] || !IsDigit(s[|s| - 1]) then 0 else 1 + TrailingDigits(s[..|s| - 1])
  }

  /** Appending digits to a string that does not end in a digit adds exactly those trailing digits. */
  lemma {:induction false} TrailingDigitsAfter(a: string, d: string)
    requires a == [] || !IsDigit(a[|a| - 1])
    requires AllDigits(d)
    ensures TrailingDigits(a + d) == |d|
    decreases |d|
  {
    if d == [] {
      assert a + d == a;
    } else {
      var s := a + d;
      assert s[..|s| - 1] == a + d[..|d| - 1];
      TrailingDigitsAfter(a, d[..|d| - 1]);
    }
  }

  /** A number written after a non-digit can be split off again unambiguously. */
  lemma SplitTrailingNat(a: string, m: nat, b: string, n: nat)
    requires a == [] || !IsDigit(a[|a| - 1])
    requires b == [] || !IsDigit(b[|b| - 1])
    requires a + NatToString(m) == b + NatToString(n)
    ensures a == b && m == n
  {
    var s := a + NatToString(m);
    NatToStringRoundTrip(m);
    NatToStringRoundTrip(n);
    TrailingDigitsAfter(a, NatToString(m));
    TrailingDigitsAfter(b, NatToString(n));
    var k := |NatToString(m)|;
    assert s[|s| - k..] == NatToString(m);
    assert s[|s| - k..] == NatToString(n);
    assert a == s[..|s| - k] == b;
    NatToStringInjective(m, n);
  }
}
