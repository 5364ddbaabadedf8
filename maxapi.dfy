/**
 * Two conversions of the MAX exchange client (pkg/exchange/max/maxapi/public.go):
 * candle resolutions to minutes, and the exchange's candle to the global one.
 */
module MaxApi {
  import opened Wrappers
  import opened Text

  /** The accepted resolutions and their lengths in minutes, in the order the switch lists them. */
  const Resolutions: seq<(string, int)> := [
    ("1m", 1), ("5m", 5), ("15m", 15), ("30m", 30),
    ("1h", 60), ("2h", 60 * 2), ("3h", 60 * 3), ("4h", 60 * 4),
    ("6h", 60 * 6), ("8h", 60 * 8), ("12h", 60 * 12),
    ("1d", 60 * 24), ("3d", 60 * 24 * 3), ("1w", 60 * 24 * 7)]

  /** The first entry whose name is `key`, searching from index i. */
  function Lookup(table: seq<(string, int)>, key: string, i: nat): (r: Option<int>)
    requires i <= |table|
    ensures r.Some? <==> exists j :: i <= j < |table| && table[j].0 == key
    ensures r.Some? ==> exists j :: i <= j < |table| && table[j] == (key, r.value)
    decreases |table| - i
  {
    if i == |table| then None
    else if table[i].0 == key then Some(table[i].1)
    else Lookup(table, key, i + 1)
  }

  /** `ParseInterval`: the error carries the input, as in "incorrect resolution: %q". */
  function ParseInterval(a: string): (r: Result<int, string>)
    ensures r.Err? ==> r.error == a
  {
    var s := ToLower(a);
    if s == "1m" then Ok(1)
    else if s == "5m" then Ok(5)
    else if s == "15m" then Ok(15)
    else if s == "30m" then Ok(30)
    else if s == "1h" then Ok(60)
    else if s == "2h" then Ok(60 * 2)
    else if s == "3h" then Ok(60 * 3)
    else if s == "4h" then Ok(60 * 4)
    else if s == "6h" then Ok(60 * 6)
    else if s == "8h" then Ok(60 * 8)
    else if s == "12h" then Ok(60 * 12)
    else if s == "1d" then Ok(60 * 24)
    else if s == "3d" then Ok(60 * 24 * 3)
    else if s == "1w" then Ok(60 * 24 * 7)
    else Err(a)
  }

  /** The switch is the table: a string parses iff its lower-cased form is listed, to the listed minutes. */
  lemma ParseIntervalIsTheTable(a: string)
    ensures ParseInterval(a).Ok? <==> Lookup(Resolutions, ToLower(a), 0).Some?
    ensures ParseInterval(a).Ok? ==> ParseInterval(a).value == Lookup(Resolutions, ToLower(a), 0).value
  {
    var s := ToLower(a);
    if Lookup(Resolutions, s, 0).Some? {
      var j :| 0 <= j < |Resolutions| && Resolutions[j].0 == s;
      assert ParseInterval(a).Ok?;
    }
  }

  /** Case does not matter: "1H" and "1h" are the same resolution. */
  lemma ParseIntervalIgnoresCase(a: string)
    ensures ParseInterval(ToUpper(a)).Ok? <==> ParseInterval(a).Ok?
    ensures ParseInterval(a).Ok? ==> ParseInterval(ToUpper(a)) == ParseInterval(a)
  {
    ToLowerIgnoresCase(a);
  }

  /** The listed names are distinct and their lengths strictly increase along the table. */
  lemma ResolutionsAreOrdered()
    ensures forall i, j :: 0 <= i < j < |Resolutions| ==> Resolutions[i].1 < Resolutions[j].1
    ensures forall i, j :: 0 <= i < j < |Resolutions| ==> Resolutions[i].0 != Resolutions[j].0
    ensures |Resolutions| == 14
  {
    forall i, j | 0 <= i < j < |Resolutions| ensures Resolutions[i].1 < Resolutions[j].1 {
      IncreasingStep(i, j);
    }
  }

  lemma IncreasingStep(i: nat, j: nat)
    requires i < j < |Resolutions|
    ensures Resolutions[i].1 < Resolutions[j].1
    decreases j - i
  {
    if i + 1 < j {
      IncreasingStep(i + 1, j);
    }
  }

  /** The resolution name of a number of minutes, the inverse of the switch. */
  function ResolutionName(minutes: int): Option<string>
  {
    if minutes == 1 then Some("1m")
    else if minutes == 5 then Some("5m")
    else if minutes == 15 then Some("15m")
    else if minutes == 30 then Some("30m")
    else if minutes == 60 then Some("1h")
    else if minutes == 120 then Some("2h")
    else if minutes == 180 then Some("3h")
    else if minutes == 240 then Some("4h")
    else if minutes == 360 then Some("6h")
    else if minutes == 480 then Some("8h")
    else if minutes == 720 then Some("12h")
    else if minutes == 1440 then Some("1d")
    else if minutes == 4320 then Some("3d")
    else if minutes == 10080 then Some("1w")
    else None
  }

  /** Every accepted resolution is a positive number of minutes, from which its name can be recovered. */
  lemma ParseIntervalRoundTrip(a: string)
    ensures ParseInterval(a).Ok? ==> ParseInterval(a).value > 0
    ensures ParseInterval(a).Ok? ==> ResolutionName(ParseInterval(a).value) == Some(ToLower(a))
  {
  }

  /** Two resolutions agree only if they are the same name up to case. */
  lemma ParseIntervalInjective(a: string, b: string)
    requires ParseInterval(a).Ok? && ParseInterval(b).Ok?
    requires ParseInterval(a).value == ParseInterval(b).value
    ensures ToLower(a) == ToLower(b)
  {
    ParseIntervalRoundTrip(a);
    ParseIntervalRoundTrip(b);
  }

  lemma ParsesWeek()
    ensures ParseInterval("1W") == Ok(10080)
    ensures ParseInterval("12h") == Ok(720)
    ensures ParseInterval("1s") == Err("1s")
  {
    assert ToLower("1W") == "1w";
    assert ToLower("12h") == "12h";
  }

  /** A candle as the MAX API returns it. */
  datatype KLine = KLine(
    symbol: string,
    interval: string,
    startTime: int,
    endTime: int,
    open: real, high: real, low: real, close: real,
    volume: real,
    closed: bool)

  /** The exchange-independent candle. */
  datatype GlobalKLine = GlobalKLine(
    exchange: string,
    symbol: string,
    interval: string,
    startTime: int,
    endTime: int,
    open: real, close: real, high: real, low: real,
    volume: real,
    closed: bool)

  /** `KLine.KLine()`: tags the exchange and writes the symbol upper-cased. */
  function ToGlobal(k: KLine): (g: GlobalKLine)
    ensures g.exchange == "max"
    ensures g.symbol == ToUpper(k.symbol)
    ensures g.interval == k.interval && g.startTime == k.startTime && g.endTime == k.endTime
    ensures g.open == k.open && g.close == k.close && g.high == k.high && g.low == k.low
    ensures g.volume == k.volume && g.closed == k.closed
  {
    GlobalKLine("max", ToUpper(k.symbol), k.interval, k.startTime, k.endTime,
                k.open, k.close, k.high, k.low, k.volume, k.closed)
  }

  /** The global symbol does not depend on how MAX cases its market name. */
  lemma ToGlobalIgnoresSymbolCase(k: KLine)
    ensures ToGlobal(k.(symbol := ToLower(k.symbol))) == ToGlobal(k)
    ensures ToGlobal(k.(symbol := ToUpper(k.symbol))) == ToGlobal(k)
  {
    ToUpperIgnoresCase(k.symbol);
  }

  /** Nothing but the symbol's case is lost: two candles convert alike iff they agree up to that case. */
  lemma ToGlobalLosesOnlyCase(k1: KLine, k2: KLine)
    ensures ToGlobal(k1) == ToGlobal(k2) <==>
      k1.(symbol := ToUpper(k1.symbol)) == k2.(symbol := ToUpper(k2.symbol))
  {
  }
}
