/** Address family of an IP literal. The record builder asks
    `net.ParseIP(s).To4() != nil`; this module stands in for that test with a
    dotted-quad check (four decimal fields of at most 255, no leading zero). */
module Addresses {
  import opened Strings

  /** The fields of `s` between occurrences of `sep` (Go's `strings.Split`). */
  function Split(s: string, sep: char): (r: seq<string>)
    ensures |r| >= 1
  {
    if s == [] then [[]]
    else
      var rest := Split(s[1..], sep);
      if s[0] == sep then [[]] + rest else [[s[0]] + rest[0]] + rest[1..]
  }

  /** One decimal field of a dotted quad as Go's parser accepts it. */
  predicate IsOctet(f: string) {
    1 <= |f| <= 3 && AllDigits(f) && (|f| > 1 ==> f[0] != '0') && DigitsValue(f) <= 255
  }

  /** The literal is an IPv4 address; every other literal is published as AAAA. */
  predicate IsIPv4(s: string) {
    var f := Split(s, '.');
    |f| == 4 && IsOctet(f[0]) && IsOctet(f[1]) && IsOctet(f[2]) && IsOctet(f[3])
  }

  /** Every character of `s` other than `sep` lands in some field. */
  lemma {:induction false} SplitKeepsCharacters(s: string, sep: char, k: nat)
    requires k < |s| && s[k] != sep
    ensures exists j :: 0 <= j < |Split(s, sep)| && s[k] in Split(s, sep)[j]
  {
    var r := Split(s, sep);
    var rest := Split(s[1..], sep);
    if k == 0 {
      assert s[0] in r[0];
    } else {
      SplitKeepsCharacters(s[1..], sep, k - 1);
      var j :| 0 <= j < |rest| && s[1..][k - 1] in rest[j];
      if s[0] == sep {
        assert r[j + 1] == rest[j];
      } else if j == 0 {
        assert r[0] == [s[0]] + rest[0];
      } else {
        assert r[j] == rest[j];
      }
    }
  }

  /** An IPv4 literal is made of digits and dots only. */
  lemma IPv4Characters(s: string, k: nat)
    requires k < |s|
    ensures IsIPv4(s) ==> IsDigit(s[k]) || s[k] == '.'
  {
    if IsIPv4(s) && s[k] != '.' {
      SplitKeepsCharacters(s, '.', k);
      var f := Split(s, '.');
      var j :| 0 <= j < |f| && s[k] in f[j];
      assert IsOctet(f[j]);
    }
  }

  /** A literal with a colon, as every textual IPv6 address has, is never read as IPv4. */
  lemma ColonMeansNotIPv4(s: string, k: nat)
    requires k < |s| && s[k] == ':'
    ensures !IsIPv4(s)
  {
    IPv4Characters(s, k);
  }
}
