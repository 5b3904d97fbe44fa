/**
 * Chart timeframes: the choice typed at the prompt, lower-cased, picks
 * either the raw one-minute series or a resampling of it.
 */
module Charting {
  import opened Wrappers
  import opened Bars
  import opened Resampling

  datatype Timeframe = OneMinute | FiveMinutes | FifteenMinutes | ThirtyMinutes | OneHour

  /** The text that selects a timeframe at the prompt, already in lower case. */
  function Label(tf: Timeframe): (r: string)
    ensures |r| > 0
    ensures forall i :: 0 <= i < |r| ==> !('A' <= r[i] <= 'Z')
  {
    match tf
    case OneMinute => "1min"
    case FiveMinutes => "5min"
    case FifteenMinutes => "15min"
    case ThirtyMinutes => "30min"
    case OneHour => "1h"
  }

  /** The bucket width in seconds of the pandas rule of the same name. */
  function Width(tf: Timeframe): (w: nat)
    ensures w > 0 && w % 60 == 0
    ensures tf == OneMinute <==> w == 60
  {
    match tf
    case OneMinute => 60
    case FiveMinutes => 300
    case FifteenMinutes => 900
    case ThirtyMinutes => 1800
    case OneHour => 3600
  }

  /** Python's `str.lower()` restricted to ASCII letters. */
  function Lower(s: string): (r: string)
    ensures |r| == |s|
    ensures forall i :: 0 <= i < |s| ==> r[i] == LowerChar(s[i])
  {
    if s == [] then [] else [LowerChar(s[0])] + Lower(s[1..])
  }

  /** An ASCII capital becomes its small letter; every other character is kept. */
  function LowerChar(c: char): (d: char)
    ensures 'A' <= c <= 'Z' ==> 'a' <= d <= 'z' && d as int == c as int + ('a' as int - 'A' as int)
    ensures !('A' <= c <= 'Z') ==> d == c
  {
    if 'A' <= c <= 'Z' then (c as int - 'A' as int + 'a' as int) as char else c
  }

  /** Lower-casing twice is lower-casing once. */
  lemma LowerIdempotent(s: string)
    ensures Lower(Lower(s)) == Lower(s)
  {
  }

  /** A text without upper-case letters is its own lower case. */
  lemma LowerOfLower(s: string)
    requires forall i :: 0 <= i < |s| ==> !('A' <= s[i] <= 'Z')
    ensures Lower(s) == s
  {
  }

  /**
   * The timeframe a choice selects: `1min` and the four resampled rules,
   * compared after `.lower()`; anything else (such as `q`) selects none.
   */
  function ParseTimeframe(choice: string): (r: Option<Timeframe>)
    ensures r.Some? ==> Lower(choice) == Label(r.value)
  {
    var c := Lower(choice);
    if c == "1min" then Some(OneMinute)
    else if c == "5min" then Some(FiveMinutes)
    else if c == "15min" then Some(FifteenMinutes)
    else if c == "30min" then Some(ThirtyMinutes)
    else if c == "1h" then Some(OneHour)
    else None
  }

  /** Each timeframe's own label selects it: the labels round-trip through the parser. */
  lemma ParseLabel(tf: Timeframe)
    ensures ParseTimeframe(Label(tf)) == Some(tf)
  {
    LowerOfLower(Label(tf));
  }

  /** A choice selects a timeframe exactly when its lower case is that timeframe's label. */
  lemma ParseExactly(choice: string, tf: Timeframe)
    ensures ParseTimeframe(choice) == Some(tf) <==> Lower(choice) == Label(tf)
  {
    LowerOfLower(Label(tf));
  }

  /** Upper and lower case select the same timeframe. */
  lemma ParseIgnoresCase(choice: string)
    ensures ParseTimeframe(choice) == ParseTimeframe(Lower(choice))
  {
    LowerIdempotent(choice);
  }

  /** Two characters are the same letter up to ASCII case, or the same character. */
  predicate SameIgnoringCase(a: char, b: char) {
    || a == b
    || ('A' <= a <= 'Z' && b as int == a as int + ('a' as int - 'A' as int))
    || ('A' <= b <= 'Z' && a as int == b as int + ('a' as int - 'A' as int))
  }

  /** Two texts that differ at most in the ASCII case of their letters. */
  predicate EqualIgnoringCase(a: string, b: string) {
    |a| == |b| && forall i :: 0 <= i < |a| ==> SameIgnoringCase(a[i], b[i])
  }

  /**
   * A choice selects a timeframe exactly when it spells that timeframe's
   * label in any mix of upper and lower case.
   */
  lemma ParseIgnoringCase(choice: string, tf: Timeframe)
    ensures ParseTimeframe(choice) == Some(tf) <==> EqualIgnoringCase(choice, Label(tf))
  {
    ParseExactly(choice, tf);
    var l := Label(tf);
    if |choice| == |l| {
      forall i | 0 <= i < |l| ensures SameIgnoringCase(choice[i], l[i]) <==> Lower(choice)[i] == l[i] {
      }
      if EqualIgnoringCase(choice, l) {
        assert Lower(choice) == l;
      }
    }
  }

  /** Capitals at the prompt are accepted: "5MIN" draws five-minute bars and "1H" hourly ones. */
  lemma UpperCaseChoices()
    ensures ParseTimeframe("5MIN") == Some(FiveMinutes)
    ensures ParseTimeframe("1H") == Some(OneHour)
    ensures ParseTimeframe("Q") == None
  {
    ParseIgnoringCase("5MIN", FiveMinutes);
    ParseIgnoringCase("1H", OneHour);
  }

  /**
   * The bars charted for a timeframe: the raw series for one minute,
   * otherwise the series resampled to the timeframe's width.
   */
  function ChartBars(tf: Timeframe, s: seq<Bar>): (r: seq<Bar>)
    ensures |r| <= |s|
    ensures TotalVolume(r) == TotalVolume(s)
    ensures Ascending(s) ==> Ascending(r)
  {
    if tf == OneMinute then s
    else
      ResampleVolume(s, Width(tf));
      assert Ascending(s) ==> Ascending(Resample(s, Width(tf))) by {
        if Ascending(s) {
          ResampleAscending(s, Width(tf));
        }
      }
      Resample(s, Width(tf))
  }

  /**
   * Passing one-minute bars through unchanged is what resampling them at
   * one minute would give: for an ascending series of bars on whole
   * minutes, every timeframe's chart is the resampling at its width.
   */
  lemma ChartIsResample(tf: Timeframe, s: seq<Bar>)
    requires Ascending(s)
    requires forall x :: x in s ==> Aligned(x.time, 60)
    ensures ChartBars(tf, s) == Resample(s, Width(tf))
  {
    if tf == OneMinute {
      ResampleAlignedIdentity(s, 60);
    }
  }

  /**
   * What a choice at the chart prompt draws: the bars of the timeframe it
   * selects, or nothing when it selects none.
   */
  function ChartFor(choice: string, s: seq<Bar>): (r: Option<seq<Bar>>)
    ensures r.None? <==> ParseTimeframe(choice).None?
    ensures r.Some? ==> TotalVolume(r.value) == TotalVolume(s)
  {
    match ParseTimeframe(choice)
    case None => None
    case Some(tf) => Some(ChartBars(tf, s))
  }

  /**
   * A choice spelling a timeframe's label in any case draws that
   * timeframe's bars: the raw series for "1min", the resampling otherwise.
   */
  lemma ChartForPicksTimeframe(choice: string, s: seq<Bar>, tf: Timeframe)
    requires EqualIgnoringCase(choice, Label(tf))
    ensures ChartFor(choice, s) == Some(ChartBars(tf, s))
    ensures tf == OneMinute ==> ChartFor(choice, s) == Some(s)
  {
    ParseIgnoringCase(choice, tf);
  }

  /** A resampled chart row aggregates exactly the one-minute bars of its bucket. */
  lemma ChartRows(tf: Timeframe, s: seq<Bar>)
    requires tf != OneMinute && Ascending(s)
    ensures forall b :: b in ChartBars(tf, s) ==>
              |Filter(s, BucketWindow(b.time, Width(tf)))| > 0 &&
              b == Aggregate(Filter(s, BucketWindow(b.time, Width(tf))), b.time)
  {
    ResampleBuckets(s, Width(tf));
  }
}
