/** The field validator of the dependency resolver
    (controllers/depresolver/depresolver_validator.go): a `validator` wraps one
    configuration value and a sticky error; each check leaves an error already
    set alone, and otherwise sets one when its condition fails. Checks are
    chained, so the error a chain leaves is that of its first failing check.
    The regular-expression engine is a parameter `matches(pattern, value)`. */
module Validation {

  datatype Option<T> = None | Some(value: T)

  /** Go's integer types, by range. */
  type Int8 = x: int | -0x80 <= x < 0x80
  type Int16 = x: int | -0x8000 <= x < 0x8000
  type Int32 = x: int | -0x8000_0000 <= x < 0x8000_0000
  type Int64 = x: int | -0x8000_0000_0000_0000 <= x < 0x8000_0000_0000_0000

  /** The dynamic type and value of the `interface{}` handed to `field`. */
  datatype FieldValue =
    | GoInt(i: Int64)
    | GoInt8(i8: Int8)
    | GoInt16(i16: Int16)
    | GoInt32(i32: Int32)
    | GoInt64(i64: Int64)
    | GoString(s: string)
    | GoStrings(a: seq<string>)
    | Unsupported(typeName: string)

  /** Which check failed, with the data its message reports. */
  datatype Failure =
    | UnsupportedType(typeName: string)
    | Empty(name: string)
    | NoMatch(value: string, pattern: string)
    | NotPositive(name: string)
    | Negative(name: string)
    | TooHigh(name: string, limit: int)
    | EqualTo(name: string, forbidden: string)
    | NoItems(name: string)
    | Redundant(name: string)

  /** The wrapped value as the checks read it. */
  datatype State = State(strValue: string, strArr: seq<string>, intValue: int, name: string)

  /** The checks a validator offers; a regular-expression check carries the engine that decides matches. */
  datatype Check =
    | NotEmpty
    | MatchRegexp(pattern: string, matches: (string, string) -> bool)
    | MatchRegexps(patterns: seq<string>, matches: (string, string) -> bool)
    | HigherThanZero
    | HigherOrEqualToZero
    | LessOrEqualTo(num: int)
    | NotEqualTo(forbidden: string)
    | HasItems
    | HasUniqueItems

  /** No element of `s` occurs twice. */
  predicate Distinct(s: seq<string>) {
    forall i, j :: 0 <= i < j < |s| ==> s[i] != s[j]
  }

  /** The elements of `s` as a set. */
  function Elements(s: seq<string>): set<string> {
    set x | x in s
  }

  /** A sequence is free of duplicates exactly when it has as many distinct elements as entries. */
  lemma {:induction false} DistinctIffSetSize(s: seq<string>)
    ensures Distinct(s) <==> |Elements(s)| == |s|
    ensures |Elements(s)| <= |s|
  {
    if s != [] {
      var init, last := s[..|s| - 1], s[|s| - 1];
      DistinctIffSetSize(init);
      assert s == init + [last];
      assert Elements(s) == Elements(init) + {last};
      if last in init {
        assert Elements(s) == Elements(init);
        var k :| 0 <= k < |init| && init[k] == last;
        assert s[k] == s[|s| - 1];
        assert !Distinct(s);
      } else {
        assert |Elements(s)| == |Elements(init)| + 1;
        if Distinct(init) {
          forall i, j | 0 <= i < j < |s| ensures s[i] != s[j] {
            if j < |s| - 1 {
              assert s[i] == init[i] && s[j] == init[j];
            } else {
              assert s[i] == init[i] && s[i] in init;
            }
          }
        } else {
          var i, j :| 0 <= i < j < |init| && init[i] == init[j];
          assert s[i] == s[j];
        }
      }
    }
  }

  /** What `matchRegexp(pattern)` reports on an error-free validator: an empty value always passes. */
  function RegexpOutcome(pattern: string, value: string, matches: (string, string) -> bool): (r: Option<Failure>)
    ensures r.None? <==> value == "" || matches(pattern, value)
    ensures r.Some? ==> r == Some(NoMatch(value, pattern))
  {
    if value == "" then None
    else if matches(pattern, value) then None
    else Some(NoMatch(value, pattern))
  }

  /** What `matchRegexps(patterns...)` reports on an error-free validator: the patterns are tried in
      order, the error is cleared before each, and the first pass ends the search. */
  function RegexpsOutcome(patterns: seq<string>, value: string, matches: (string, string) -> bool): Option<Failure>
    decreases |patterns|
  {
    if patterns == [] then None
    else
      var first := RegexpOutcome(patterns[0], value, matches);
      if first.None? || |patterns| == 1 then first
      else RegexpsOutcome(patterns[1..], value, matches)
  }

  /** `matchRegexps` passes exactly when there is no pattern, the value is empty or some pattern
      matches; otherwise the error is the failure of the last pattern. */
  lemma {:induction false} RegexpsOutcomeClosedForm(patterns: seq<string>, value: string,
                                                    matches: (string, string) -> bool)
    ensures var r := RegexpsOutcome(patterns, value, matches);
      && (r.None? <==>
            (patterns == [] || value == "" || exists j :: 0 <= j < |patterns| && matches(patterns[j], value)))
      && (r.Some? ==> r == Some(NoMatch(value, patterns[|patterns| - 1])))
    decreases |patterns|
  {
    if patterns != [] && value != "" && !matches(patterns[0], value) && |patterns| > 1 {
      var rest := patterns[1..];
      RegexpsOutcomeClosedForm(rest, value, matches);
      assert rest[|rest| - 1] == patterns[|patterns| - 1];
      if exists j :: 0 <= j < |patterns| && matches(patterns[j], value) {
        var j :| 0 <= j < |patterns| && matches(patterns[j], value);
        assert j > 0 && rest[j - 1] == patterns[j];
      }
      if exists j :: 0 <= j < |rest| && matches(rest[j], value) {
        var j :| 0 <= j < |rest| && matches(rest[j], value);
        assert patterns[j + 1] == rest[j];
      }
    } else if patterns != [] && value != "" && matches(patterns[0], value) {
      assert matches(patterns[0], value);
    }
  }

  /** Once a pattern matches, the patterns after it are never tried: the outcome is that of the
      list cut just after the first match. */
  lemma {:induction false} MatchRegexpsStopsAtFirstMatch(patterns: seq<string>, value: string,
                                                         matches: (string, string) -> bool, k: nat)
    requires k < |patterns| && matches(patterns[k], value)
    requires forall j :: 0 <= j < k ==> !matches(patterns[j], value)
    ensures RegexpsOutcome(patterns, value, matches) == RegexpsOutcome(patterns[..k + 1], value, matches) == None
    decreases k
  {
    if k > 0 && value != "" {
      var rest := patterns[1..];
      MatchRegexpsStopsAtFirstMatch(rest, value, matches, k - 1);
      assert patterns[..k + 1][1..] == rest[..k];
      assert !matches(patterns[0], value);
    }
  }

  /** What `check` reports when it runs on a validator with no error yet. */
  function Verdict(check: Check, s: State): (r: Option<Failure>)
    ensures check.NotEmpty? ==> (r.Some? <==> s.strValue == "")
    ensures check.NotEqualTo? ==> (r.Some? <==> s.strValue == check.forbidden)
    ensures check.HigherThanZero? ==> (r.Some? <==> s.intValue <= 0)
    ensures check.HigherOrEqualToZero? ==> (r.Some? <==> s.intValue < 0)
    ensures check.LessOrEqualTo? ==> (r.Some? <==> s.intValue > check.num)
    ensures check.HasItems? ==> (r.Some? <==> s.strArr == [])
    ensures check.HasUniqueItems? ==> (r.Some? <==> !Distinct(s.strArr))
  {
    match check
    case NotEmpty => if s.strValue == "" then Some(Empty(s.name)) else None
    case MatchRegexp(pattern, matches) => RegexpOutcome(pattern, s.strValue, matches)
    case MatchRegexps(patterns, matches) => RegexpsOutcome(patterns, s.strValue, matches)
    case HigherThanZero => if s.intValue <= 0 then Some(NotPositive(s.name)) else None
    case HigherOrEqualToZero => if s.intValue < 0 then Some(Negative(s.name)) else None
    case LessOrEqualTo(num) => if s.intValue > num then Some(TooHigh(s.name, num)) else None
    case NotEqualTo(forbidden) => if s.strValue == forbidden then Some(EqualTo(s.name, forbidden)) else None
    case HasItems => if |s.strArr| == 0 then Some(NoItems(s.name)) else None
    case HasUniqueItems =>
      DistinctIffSetSize(s.strArr);
      if |Elements(s.strArr)| != |s.strArr| then Some(Redundant(s.name)) else None
  }

  /** The error after running `check`: an error already set is kept. */
  function Next(err: Option<Failure>, check: Check, s: State): Option<Failure> {
    if err.Some? then err else Verdict(check, s)
  }

  /** The error after running `checks` one after another. */
  function Chain(err: Option<Failure>, checks: seq<Check>, s: State): Option<Failure>
    decreases |checks|
  {
    if checks == [] then err else Chain(Next(err, checks[0], s), checks[1..], s)
  }

  /** No check clears an error: a chain started with one ends with it. */
  lemma {:induction false} ChainSticky(err: Option<Failure>, checks: seq<Check>, s: State)
    requires err.Some?
    ensures Chain(err, checks, s) == err
    decreases |checks|
  {
    if checks != [] {
      ChainSticky(err, checks[1..], s);
    }
  }

  /** A chain on an error-free validator passes exactly when every check passes, and otherwise
      reports the failure of its first failing check. */
  lemma {:induction false} ChainReportsFirstFailure(checks: seq<Check>, s: State)
    ensures Chain(None, checks, s).None? <==> forall j :: 0 <= j < |checks| ==> Verdict(checks[j], s).None?
    ensures Chain(None, checks, s).Some? ==>
      exists k :: 0 <= k < |checks| && (forall j :: 0 <= j < k ==> Verdict(checks[j], s).None?) &&
        Chain(None, checks, s) == Verdict(checks[k], s)
    decreases |checks|
  {
    if checks != [] {
      var rest := checks[1..];
      var first := Verdict(checks[0], s);
      if first.Some? {
        ChainSticky(first, rest, s);
        assert Chain(None, checks, s) == Verdict(checks[0], s);
      } else {
        ChainReportsFirstFailure(rest, s);
        forall j | 0 <= j < |rest| ensures rest[j] == checks[j + 1] { }
        if Chain(None, checks, s).Some? {
          var k :| 0 <= k < |rest| && (forall j :: 0 <= j < k ==> Verdict(rest[j], s).None?) &&
            Chain(None, rest, s) == Verdict(rest[k], s);
          forall j | 0 <= j < k + 1 ensures Verdict(checks[j], s).None? {
            if j > 0 {
              assert Verdict(rest[j - 1], s).None?;
            }
          }
          assert Chain(None, checks, s) == Verdict(checks[k + 1], s);
        } else {
          forall j | 0 <= j < |checks| ensures Verdict(checks[j], s).None? {
            if j > 0 {
              assert Verdict(rest[j - 1], s).None?;
            }
          }
        }
      }
    }
  }

  /** `strings.ReplaceAll(s, " ", "")`: every character but the spaces is kept. */
  function RemoveSpaces(s: string): (r: string)
    ensures forall i :: 0 <= i < |r| ==> r[i] != ' '
    ensures r == [] <==> forall i :: 0 <= i < |s| ==> s[i] == ' '
  {
    if s == [] then []
    else
      var rest := RemoveSpaces(s[1..]);
      assert forall i :: 0 < i < |s| ==> s[i] == s[1..][i - 1];
      if s[0] == ' ' then rest else [s[0]] + rest
  }

  /** Every character but the spaces is kept, as often as it occurs. */
  lemma {:induction false} RemoveSpacesKeepsCharacters(s: string)
    ensures multiset(RemoveSpaces(s)) == multiset(s)[' ' := 0]
  {
    if s != [] {
      RemoveSpacesKeepsCharacters(s[1..]);
      assert s == [s[0]] + s[1..];
      assert multiset(s) == multiset{s[0]} + multiset(s[1..]);
    }
  }

  /** The kept characters stay in their order: removing spaces from a concatenation removes them
      from each part. */
  lemma {:induction false} RemoveSpacesConcat(a: string, b: string)
    ensures RemoveSpaces(a + b) == RemoveSpaces(a) + RemoveSpaces(b)
    decreases |a|
  {
    if a != [] {
      assert (a + b)[1..] == a[1..] + b;
      RemoveSpacesConcat(a[1..], b);
    } else {
      assert a + b == b;
    }
  }

  /** The free function `isNotEmpty`: the string holds some character other than a space. */
  function IsNotEmpty(s: string): (b: bool)
    ensures b <==> exists i :: 0 <= i < |s| && s[i] != ' '
  {
    RemoveSpaces(s) != ""
  }

  class Validator {
    var strValue: string
    var strArr: seq<string>
    var intValue: int
    var name: string
    var err: Option<Failure>

    /** The wrapped value. */
    function Current(): State
      reads this
    {
      State(strValue, strArr, intValue, name)
    }

    /** `field(name, value)`: stores the value in the slot its type selects, leaving the other slots
        at Go's zero values; a value of any other type gives a validator that has already failed. */
    constructor Field(name: string, value: FieldValue)
      ensures this.name == name
      ensures intValue == match value
        case GoInt(i) => i case GoInt8(i) => i case GoInt16(i) => i
        case GoInt32(i) => i case GoInt64(i) => i case _ => 0
      ensures strValue == if value.GoString? then value.s else ""
      ensures strArr == if value.GoStrings? then value.a else []
      ensures err == if value.Unsupported? then Some(UnsupportedType(value.typeName)) else None
    {
      this.name := name;
      strValue := "";
      strArr := [];
      intValue := 0;
      err := None;
      match value {
        case GoInt(i) => intValue := i;
        case GoInt8(i) => intValue := i;
        case GoInt16(i) => intValue := i;
        case GoInt32(i) => intValue := i;
        case GoInt64(i) => intValue := i;
        case GoString(s) => strValue := s;
        case GoStrings(a) => strArr := a;
        case Unsupported(t) => err := Some(UnsupportedType(t));
      }
    }

    method IsNotEmpty() returns (v: Validator)
      modifies this`err
      ensures v == this && err == Next(old(err), Check.NotEmpty, Current())
    {
      if err.Some? {
        return this;
      }
      if strValue == "" {
        err := Some(Empty(name));
      }
      return this;
    }

    method MatchRegexp(regex: string, matches: (string, string) -> bool) returns (v: Validator)
      modifies this`err
      ensures v == this && err == Next(old(err), Check.MatchRegexp(regex, matches), Current())
    {
      if err.Some? {
        return this;
      }
      if strValue == "" {
        return this;
      }
      if !matches(regex, strValue) {
        err := Some(NoMatch(strValue, regex));
      }
      return this;
    }

    /** Tries the patterns in order, clearing the error before each, and stops at the first that passes. */
    method MatchRegexps(regex: seq<string>, matches: (string, string) -> bool) returns (v: Validator)
      modifies this`err
      ensures v == this && err == Next(old(err), Check.MatchRegexps(regex, matches), Current())
    {
      if err.Some? {
        return this;
      }
      ghost var outcome := RegexpsOutcome(regex, strValue, matches);
      var i := 0;
      while i < |regex|
        invariant 0 <= i <= |regex|
        invariant i == 0 ==> err == None
        invariant 0 < i ==> err == RegexpOutcome(regex[i - 1], strValue, matches) && err.Some?
        invariant 0 < i < |regex| ==> outcome == RegexpsOutcome(regex[i..], strValue, matches)
        invariant 0 < i == |regex| ==> outcome == err
      {
        err := None;
        var r := MatchRegexp(regex[i], matches);
        if r.err == None {
          assert outcome == None by {
            if i > 0 {
              assert regex[i..][0] == regex[i];
            }
          }
          return this;
        }
        if i + 1 < |regex| {
          assert regex[i..][0] == regex[i] && regex[i..][1..] == regex[i + 1..];
        } else if i > 0 {
          assert regex[i..] == [regex[i]];
        }
        i := i + 1;
      }
      return this;
    }

    method IsHigherThanZero() returns (v: Validator)
      modifies this`err
      ensures v == this && err == Next(old(err), Check.HigherThanZero, Current())
    {
      if err.Some? {
        return this;
      }
      if intValue <= 0 {
        err := Some(NotPositive(name));
      }
      return this;
    }

    method IsHigherOrEqualToZero() returns (v: Validator)
      modifies this`err
      ensures v == this && err == Next(old(err), Check.HigherOrEqualToZero, Current())
    {
      if err.Some? {
        return this;
      }
      if intValue < 0 {
        err := Some(Negative(name));
      }
      return this;
    }

    method IsLessOrEqualTo(num: int) returns (v: Validator)
      modifies this`err
      ensures v == this && err == Next(old(err), Check.LessOrEqualTo(num), Current())
    {
      if err.Some? {
        return this;
      }
      if intValue > num {
        err := Some(TooHigh(name, num));
      }
      return this;
    }

    method IsNotEqualTo(value: string) returns (v: Validator)
      modifies this`err
      ensures v == this && err == Next(old(err), Check.NotEqualTo(value), Current())
    {
      if err.Some? {
        return this;
      }
      if strValue == value {
        err := Some(EqualTo(name, value));
      }
      return this;
    }

    method HasItems() returns (v: Validator)
      modifies this`err
      ensures v == this && err == Next(old(err), Check.HasItems, Current())
    {
      if err.Some? {
        return this;
      }
      if |strArr| == 0 {
        err := Some(NoItems(name));
      }
      return this;
    }

    /** Collects the items as the keys of a map and compares its size with the item count. */
    method HasUniqueItems() returns (v: Validator)
      modifies this`err
      ensures v == this && err == Next(old(err), Check.HasUniqueItems, Current())
    {
      if err.Some? {
        return this;
      }
      var m: map<string, bool> := map[];
      var i := 0;
      while i < |strArr|
        invariant 0 <= i <= |strArr|
        invariant m.Keys == Elements(strArr[..i])
      {
        assert strArr[..i + 1] == strArr[..i] + [strArr[i]];
        m := m[strArr[i] := true];
        i := i + 1;
      }
      assert strArr[..i] == strArr;
      if |m| != |strArr| {
        err := Some(Redundant(name));
      }
      return this;
    }
  }
}
