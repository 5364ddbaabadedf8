/**
 * The `duration` parser of pkg/strategy/spreadmonitor/strategy.go: the leftmost
 * match of `(\d+)([smh])` anywhere in the input, its digits read as a signed
 * 64-bit integer, times one second, minute or hour. `time.Duration` counts
 * nanoseconds in an int64.
 */
module Durations {
  import opened Wrappers
  import opened Text

  const MaxInt64: int := 0x7fff_ffff_ffff_ffff
  const MinInt64: int := -0x8000_0000_0000_0000
  const TwoTo64: int := 0x1_0000_0000_0000_0000

  const Second: int := 1_000_000_000
  const Minute: int := 60 * Second
  const Hour: int := 60 * Minute

  predicate IsInt64(x: int) { MinInt64 <= x <= MaxInt64 }

  /** Two's-complement wrap-around of Go's int64 arithmetic. */
  function Wrap64(x: int): (r: int)
    ensures IsInt64(r)
    ensures (r - x) % TwoTo64 == 0
    ensures IsInt64(x) ==> r == x
  {
    (x - MinInt64) % TwoTo64 + MinInt64
  }

  predicate IsUnit(c: char) { c == 's' || c == 'm' || c == 'h' }

  function UnitOf(c: char): (u: int)
    requires IsUnit(c)
    ensures u == Second || u == Minute || u == Hour
    ensures c == 's' <==> u == Second
    ensures c == 'h' <==> u == Hour
  {
    match c
    case 's' => Second
    case 'm' => Minute
    case 'h' => Hour
  }

  predicate AllDigits(ds: string) { forall k :: 0 <= k < |ds| ==> IsDigit(ds[k]) }

  /** Where the run of digits that starts at `i` ends: `\d+` is greedy. */
  function DigitRunEnd(s: string, i: nat): (e: nat)
    requires i <= |s|
    ensures i <= e <= |s|
    ensures forall k :: i <= k < e ==> IsDigit(s[k])
    ensures e == |s| || !IsDigit(s[e])
    decreases |s| - i
  {
    if i < |s| && IsDigit(s[i]) then DigitRunEnd(s, i + 1) else i
  }

  /** The pattern `(\d+)([smh])` matches starting at `i`. */
  predicate MatchesAt(s: string, i: nat)
    requires i <= |s|
  {
    i < |s| && IsDigit(s[i]) && DigitRunEnd(s, i) < |s| && IsUnit(s[DigitRunEnd(s, i)])
  }

  /**
   * Reading the pattern literally: some non-empty stretch of digits from `i`,
   * followed by a unit letter. Greediness makes no difference, because a unit
   * letter is not a digit, so only the full run can be followed by one.
   */
  lemma MatchesAtIsThePattern(s: string, i: nat)
    requires i <= |s|
    ensures MatchesAt(s, i) <==> exists j :: i < j < |s| && AllDigits(s[i..j]) && IsUnit(s[j])
  {
    if MatchesAt(s, i) {
      var j := DigitRunEnd(s, i);
      assert AllDigits(s[i..j]);
    }
    if exists j :: i < j < |s| && AllDigits(s[i..j]) && IsUnit(s[j]) {
      var j :| i < j < |s| && AllDigits(s[i..j]) && IsUnit(s[j]);
      assert forall k :: i <= k < j ==> IsDigit(s[k]) by {
        forall k | i <= k < j ensures IsDigit(s[k]) { assert s[i..j][k - i] == s[k]; }
      }
      CapturedRunIsFull(s, i, j);
    }
  }

  /** The only stretch of digits that a unit letter can follow is the whole run. */
  lemma CapturedRunIsFull(s: string, i: nat, j: nat)
    requires i <= j < |s|
    requires forall k :: i <= k < j ==> IsDigit(s[k])
    requires IsUnit(s[j])
    ensures DigitRunEnd(s, i) == j
    decreases j - i
  {
    if i < j {
      CapturedRunIsFull(s, i + 1, j);
    }
  }

  /** The search of `FindStringSubmatch`: the leftmost position at or after `i` where the pattern matches. */
  function FindMatch(s: string, i: nat): (r: Option<nat>)
    requires i <= |s|
    ensures r.Some? ==> i <= r.value < |s| && MatchesAt(s, r.value)
    ensures r.Some? ==> forall k :: i <= k < r.value ==> !MatchesAt(s, k)
    ensures r.None? ==> forall k :: i <= k <= |s| ==> !MatchesAt(s, k)
    decreases |s| - i
  {
    if i == |s| then None
    else if MatchesAt(s, i) then Some(i)
    else FindMatch(s, i + 1)
  }

  function DigitValue(c: char): (v: nat)
    requires IsDigit(c)
    ensures v <= 9
  {
    c as int - '0' as int
  }

  /** The decimal number a string of digits spells, leading zeros allowed. */
  function DigitsValue(ds: string): nat
    requires AllDigits(ds)
  {
    if ds == [] then 0 else DigitsValue(ds[..|ds| - 1]) * 10 + DigitValue(ds[|ds| - 1])
  }

  /** `strconv.ParseInt(ds, 10, 64)` on a string of digits: out of range above the int64 maximum. */
  function ParseInt64(ds: string): (r: Option<int>)
    requires AllDigits(ds)
    ensures r.Some? <==> DigitsValue(ds) <= MaxInt64
    ensures r.Some? ==> r.value == DigitsValue(ds) && IsInt64(r.value)
  {
    if DigitsValue(ds) <= MaxInt64 then Some(DigitsValue(ds)) else None
  }

  datatype DurationError =
    | NoMatch         // "duration example: 1s, 1m, 1h"
    | InvalidNumber   // the digits do not fit in an int64
    | Overflow        // the product does not fit in a time.Duration

  /** The leftmost match's digits and unit letter. */
  function Captures(s: string, i: nat): (c: (string, char))
    requires i <= |s| && MatchesAt(s, i)
    ensures AllDigits(c.0) && |c.0| > 0 && IsUnit(c.1)
  {
    var e := DigitRunEnd(s, i);
    assert forall k :: 0 <= k < e - i ==> s[i..e][k] == s[i + k];
    (s[i..e], s[e])
  }

  /**
   * `duration` as written: `time.Duration(d) * unit` is an int64
   * multiplication, which wraps around when the product is too large.
   */
  function DurationAsWritten(s: string): (r: Result<int, DurationError>)
    ensures r.Ok? ==> IsInt64(r.value)
    ensures r == Err(NoMatch) <==> forall k :: 0 <= k <= |s| ==> !MatchesAt(s, k)
  {
    match FindMatch(s, 0)
    case None => Err(NoMatch)
    case Some(i) =>
      var (digits, unit) := Captures(s, i);
      match ParseInt64(digits)
      case None => Err(InvalidNumber)
      case Some(d) => Ok(Wrap64(d * UnitOf(unit)))
  }

  /** `duration` with the multiplication checked: a product beyond the int64 range is an error. */
  function Duration(s: string): (r: Result<int, DurationError>)
    ensures r == Err(NoMatch) <==> forall k :: 0 <= k <= |s| ==> !MatchesAt(s, k)
    ensures r.Ok? ==> 0 <= r.value <= MaxInt64 && r.value % Second == 0
  {
    match FindMatch(s, 0)
    case None => Err(NoMatch)
    case Some(i) =>
      var (digits, unit) := Captures(s, i);
      match ParseInt64(digits)
      case None => Err(InvalidNumber)
      case Some(d) =>
        if d * UnitOf(unit) > MaxInt64 then Err(Overflow) else Ok(d * UnitOf(unit))
  }

  /**
   * What a successful parse means: there is a leftmost match, and the result is
   * its number times its unit.
   */
  lemma DurationOk(s: string)
    requires Duration(s).Ok?
    ensures exists i ::
      0 <= i < |s| && MatchesAt(s, i) && (forall k :: 0 <= k < i ==> !MatchesAt(s, k)) &&
      Duration(s).value == DigitsValue(Captures(s, i).0) * UnitOf(Captures(s, i).1)
  {
    var i := FindMatch(s, 0).value;
    assert MatchesAt(s, i);
  }

  /**
   * Every outcome once the leftmost match is found: digits beyond the int64
   * range are an error for both versions; otherwise the written version returns
   * the wrapped product, and the checked one the product itself when it fits
   * and an overflow error when it does not.
   */
  lemma DurationOnMatch(s: string, i: nat)
    requires FindMatch(s, 0) == Some(i)
    ensures var d, u := DigitsValue(Captures(s, i).0), UnitOf(Captures(s, i).1);
      && (d > MaxInt64 ==> Duration(s) == Err(InvalidNumber) && DurationAsWritten(s) == Err(InvalidNumber))
      && (d <= MaxInt64 ==> DurationAsWritten(s) == Ok(Wrap64(d * u)))
      && (d * u <= MaxInt64 ==> Duration(s) == Ok(d * u))
      && (d <= MaxInt64 < d * u ==> Duration(s) == Err(Overflow))
  {
  }

  /** Wherever the checked version succeeds, the written one gives the same duration. */
  lemma DurationAgreesWhenItFits(s: string)
    requires Duration(s).Ok?
    ensures DurationAsWritten(s) == Duration(s)
  {
  }

  /** The checked version fails only where the written one wraps or fails too. */
  lemma OverflowIsWhereTheWrittenOneWraps(s: string)
    requires Duration(s) == Err(Overflow)
    ensures DurationAsWritten(s).Ok?
    ensures exists i ::
      0 <= i < |s| && MatchesAt(s, i) &&
      DigitsValue(Captures(s, i).0) * UnitOf(Captures(s, i).1) > MaxInt64
  {
    var i := FindMatch(s, 0).value;
    assert MatchesAt(s, i);
  }

  /** Shifting a match past a prefix. */
  lemma DigitRunEndShift(p: string, s: string, i: nat)
    requires i <= |s|
    ensures DigitRunEnd(p + s, |p| + i) == |p| + DigitRunEnd(s, i)
    decreases |s| - i
  {
    assert forall k :: 0 <= k < |s| ==> (p + s)[|p| + k] == s[k];
    if i < |s| && IsDigit(s[i]) {
      DigitRunEndShift(p, s, i + 1);
    }
  }

  lemma MatchesAtShift(p: string, s: string, i: nat)
    requires i <= |s|
    ensures MatchesAt(p + s, |p| + i) <==> MatchesAt(s, i)
  {
    assert forall k :: 0 <= k < |s| ==> (p + s)[|p| + k] == s[k];
    DigitRunEndShift(p, s, i);
  }

  lemma {:induction false} FindMatchShift(p: string, s: string, i: nat)
    requires i <= |s|
    requires forall k :: 0 <= k < |p| ==> !IsDigit(p[k])
    ensures FindMatch(p + s, |p| + i) == match FindMatch(s, i) case None => None case Some(j) => Some(|p| + j)
    decreases |s| - i
  {
    MatchesAtShift(p, s, i);
    if i < |s| && !MatchesAt(s, i) {
      FindMatchShift(p, s, i + 1);
    }
  }

  lemma {:induction false} NoMatchInPrefix(p: string, s: string, i: nat)
    requires i <= |p|
    requires forall k :: 0 <= k < |p| ==> !IsDigit(p[k])
    ensures FindMatch(p + s, i) == FindMatch(p + s, |p|)
    decreases |p| - i
  {
    if i < |p| {
      assert (p + s)[i] == p[i];
      assert !MatchesAt(p + s, i);
      NoMatchInPrefix(p, s, i + 1);
    }
  }

  /**
   * Text before the number is ignored: a prefix without digits does not change
   * what is parsed.
   */
  lemma DurationIgnoresPrefix(p: string, s: string)
    requires forall k :: 0 <= k < |p| ==> !IsDigit(p[k])
    ensures Duration(p + s) == Duration(s)
    ensures DurationAsWritten(p + s) == DurationAsWritten(s)
  {
    NoMatchInPrefix(p, s, 0);
    FindMatchShift(p, s, 0);
    match FindMatch(s, 0)
    case None =>
    case Some(j) =>
      var e := DigitRunEnd(s, j);
      DigitRunEndShift(p, s, j);
      assert (p + s)[|p| + j..|p| + e] == s[j..e];
      assert (p + s)[|p| + e] == s[e];
  }

  lemma ParsesOneSecond()
    ensures Duration("1s") == Ok(Second)
  {
    assert MatchesAt("1s", 0);
    assert "1s"[0..1] == "1";
  }

  lemma ParsesMinutesAmidText()
    ensures Duration("every 15m!") == Ok(15 * Minute)
  {
    var s := "every 15m!";
    assert DigitRunEnd(s, 6) == 8;
    assert MatchesAt(s, 6);
    assert FindMatch(s, 0) == Some(6) by {
      assert forall k :: 0 <= k < 6 ==> !IsDigit(s[k]);
    }
    assert s[6..8] == "15";
    DigitsValueAppend("", '1');
    assert "" + ['1'] == "1";
    DigitsValueAppend("1", '5');
    assert "1" + ['5'] == "15";
  }

  /** The pattern is case-sensitive: an upper-case unit letter is no match. */
  lemma UpperCaseUnitIsNoMatch()
    ensures Duration("1H") == Err(NoMatch)
  {
    var s := "1H";
    assert DigitRunEnd(s, 0) == 1;
    assert !MatchesAt(s, 0);
    assert !MatchesAt(s, 1);
  }

  lemma HoursOverflowCheckedVersion()
    ensures Duration("2562048h") == Err(Overflow)
  {
    var s := "2562048h";
    OverflowHoursDigits();
    assert DigitRunEnd(s, 0) == 7;
    assert MatchesAt(s, 0);
    assert s[0..7] == "2562048";
  }

  /**
   * 2562048 hours are 9223372800000000000 ns, past 2^63 - 1: the multiplication
   * as written wraps to a negative duration.
   */
  lemma HoursOverflowWrapsNegative()
    ensures DurationAsWritten("2562048h") == Ok(-9223371273709551616)
  {
    var s := "2562048h";
    OverflowHoursDigits();
    assert DigitRunEnd(s, 0) == 7;
    assert MatchesAt(s, 0);
    assert s[0..7] == "2562048";
    assert 2562048 * Hour == 9223372800000000000;
  }

  /** Appending a digit shifts the number one decimal place. */
  lemma DigitsValueAppend(ds: string, c: char)
    requires AllDigits(ds) && IsDigit(c)
    ensures AllDigits(ds + [c])
    ensures DigitsValue(ds + [c]) == DigitsValue(ds) * 10 + DigitValue(c)
  {
    assert (ds + [c])[..|ds|] == ds;
  }

  lemma OverflowHoursDigits()
    ensures DigitsValue("2562048") == 2562048
  {
    DigitsValueAppend("", '2');
    assert "" + ['2'] == "2";
    DigitsValueAppend("2", '5');
    assert "2" + ['5'] == "25";
    DigitsValueAppend("25", '6');
    assert "25" + ['6'] == "256";
    DigitsValueAppend("256", '2');
    assert "256" + ['2'] == "2562";
    DigitsValueAppend("2562", '0');
    assert "2562" + ['0'] == "25620";
    DigitsValueAppend("25620", '4');
    assert "25620" + ['4'] == "256204";
    DigitsValueAppend("256204", '8');
    assert "256204" + ['8'] == "2562048";
  }
}
