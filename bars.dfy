/**
 * One session's one-minute OHLCV bars.
 *
 * A bar's `Date` is a '%Y-%m-%d %H:%M:%S' string for a single trading day,
 * already converted to US/Eastern time. Within one day that text orders
 * exactly like the number of seconds since midnight (module Clock proves
 * it), so a time here is that number.
 */
module Bars {

  /** Seconds since local midnight of the session date. */
  type Time = t: nat | t < 86400

  /** One row of the intraday frame: Date, Open, High, Low, Close, Volume. */
  datatype Bar = Bar(time: Time, open: real, high: real, low: real, close: real, volume: nat)

  const MARKET_OPEN: Time := 34200        // 09:30:00
  const OPENING_RANGE_END: Time := 34500  // 09:35:00
  const MARKET_CLOSE: Time := 57600       // 16:00:00

  /** A time interval whose ends are each inclusive or exclusive. */
  datatype Window = Window(start: nat, startIncluded: bool, end: nat, endIncluded: bool)
  {
    predicate Contains(t: nat) {
      && (if startIncluded then start <= t else start < t)
      && (if endIncluded then t <= end else t < end)
    }
  }

  /** [09:30:00, 09:35:00): the first five one-minute bars of the session. */
  const OPENING_RANGE := Window(MARKET_OPEN, true, OPENING_RANGE_END, false)
  /** [09:30:00, 16:00:00]: the regular session, both ends included. */
  const REGULAR_SESSION := Window(MARKET_OPEN, true, MARKET_CLOSE, true)
  /** (09:35:00, 16:00:00]: where a breakout is looked for; 09:35:00 itself is not. */
  const AFTER_OPENING_RANGE := Window(OPENING_RANGE_END, false, MARKET_CLOSE, true)

  /** Bars strictly increasing in time, as the feed delivers them (sort=asc). */
  predicate Ascending(s: seq<Bar>) {
    forall i, j :: 0 <= i < j < |s| ==> s[i].time < s[j].time
  }

  /** Putting a bar earlier than every bar of an ascending series in front keeps it ascending. */
  lemma AscendingCons(x: Bar, s: seq<Bar>)
    requires Ascending(s)
    requires forall b :: b in s ==> x.time < b.time
    ensures Ascending([x] + s)
  {
    forall i, j | 0 <= i < j < |[x] + s| ensures ([x] + s)[i].time < ([x] + s)[j].time {
      assert ([x] + s)[j] == s[j - 1] && s[j - 1] in s;
    }
  }

  /** Every suffix of an ascending series is ascending. */
  lemma AscendingSuffix(s: seq<Bar>, n: nat)
    requires Ascending(s) && n <= |s|
    ensures Ascending(s[n..])
  {
    forall i, j | 0 <= i < j < |s[n..]| ensures s[n..][i].time < s[n..][j].time {
      assert s[n..][i] == s[n + i] && s[n..][j] == s[n + j];
    }
  }

  /** The price ordering a bar is expected to satisfy. */
  predicate WellFormed(b: Bar) {
    b.low <= b.open <= b.high && b.low <= b.close <= b.high
  }

  /** The rows that a boolean mask on `Date` keeps, in series order. */
  function Filter(s: seq<Bar>, w: Window): (r: seq<Bar>)
    ensures |r| <= |s|
    ensures forall b :: b in r <==> b in s && w.Contains(b.time)
  {
    if s == [] then []
    else
      var rest := Filter(s[..|s| - 1], w);
      assert s == s[..|s| - 1] + [s[|s| - 1]];
      if w.Contains(s[|s| - 1].time) then rest + [s[|s| - 1]] else rest
  }

  lemma {:induction false} FilterAscending(s: seq<Bar>, w: Window)
    requires Ascending(s)
    ensures Ascending(Filter(s, w))
  {
    if s != [] {
      var init, last := s[..|s| - 1], s[|s| - 1];
      FilterAscending(init, w);
      var rest := Filter(init, w);
      forall b | b in rest ensures b.time < last.time {
        var k :| 0 <= k < |init| && init[k] == b;
      }
    }
  }

  /** Filtering a concatenation filters each part. */
  lemma {:induction false} FilterAppend(a: seq<Bar>, b: seq<Bar>, w: Window)
    ensures Filter(a + b, w) == Filter(a, w) + Filter(b, w)
  {
    if b == [] {
      assert a + b == a;
    } else {
      var init := b[..|b| - 1];
      FilterAppend(a, init, w);
      assert (a + b)[..|a + b| - 1] == a + init;
    }
  }

  /** Filtering a series filters its two parts on either side of position `n`. */
  lemma FilterSplit(s: seq<Bar>, n: nat, w: Window)
    requires n <= |s|
    ensures Filter(s, w) == Filter(s[..n], w) + Filter(s[n..], w)
  {
    FilterAppend(s[..n], s[n..], w);
    assert s[..n] + s[n..] == s;
  }

  /** Filtering keeps everything when every bar is inside the window. */
  lemma {:induction false} FilterAll(s: seq<Bar>, w: Window)
    requires forall i :: 0 <= i < |s| ==> w.Contains(s[i].time)
    ensures Filter(s, w) == s
  {
    if s != [] {
      FilterAll(s[..|s| - 1], w);
    }
  }

  /** Filtering keeps nothing when no bar is inside the window. */
  lemma {:induction false} FilterNone(s: seq<Bar>, w: Window)
    requires forall i :: 0 <= i < |s| ==> !w.Contains(s[i].time)
    ensures Filter(s, w) == []
  {
    if s != [] {
      FilterNone(s[..|s| - 1], w);
    }
  }

  /** `Volume.sum()` over a frame. */
  function TotalVolume(s: seq<Bar>): (r: nat)
    ensures forall i :: 0 <= i < |s| ==> s[i].volume <= r
  {
    if s == [] then 0 else TotalVolume(s[..|s| - 1]) + s[|s| - 1].volume
  }

  lemma {:induction false} TotalVolumeAppend(a: seq<Bar>, b: seq<Bar>)
    ensures TotalVolume(a + b) == TotalVolume(a) + TotalVolume(b)
  {
    if b == [] {
      assert a + b == a;
    } else {
      TotalVolumeAppend(a, b[..|b| - 1]);
      assert (a + b)[..|a + b| - 1] == a + b[..|b| - 1];
    }
  }

  /** The volume of a series is the volume before position `n` plus the volume from it on. */
  lemma TotalVolumeSplit(s: seq<Bar>, n: nat)
    requires n <= |s|
    ensures TotalVolume(s) == TotalVolume(s[..n]) + TotalVolume(s[n..])
  {
    TotalVolumeAppend(s[..n], s[n..]);
    assert s[..n] + s[n..] == s;
  }

  lemma TotalVolumeSingle(b: Bar)
    ensures TotalVolume([b]) == b.volume
  {
    assert [b][..0] == [];
  }

  /**
   * The volume of every bar whose time is strictly before `t`, wherever it
   * lies in the day (pre-market bars included).
   */
  function VolumeBefore(s: seq<Bar>, t: Time): (r: nat)
    ensures r <= TotalVolume(s)
  {
    if s == [] then 0
    else VolumeBefore(s[..|s| - 1], t) + (if s[|s| - 1].time < t then s[|s| - 1].volume else 0)
  }

  /** The volume before `t` is the `Volume.sum()` of the `Date < t` selection. */
  lemma {:induction false} VolumeBeforeIsFilteredSum(s: seq<Bar>, t: Time)
    ensures VolumeBefore(s, t) == TotalVolume(Filter(s, Window(0, true, t, false)))
  {
    if s != [] {
      VolumeBeforeIsFilteredSum(s[..|s| - 1], t);
    }
  }

  /** A later cut-off never counts less volume. */
  lemma {:induction false} VolumeBeforeMonotone(s: seq<Bar>, t: Time, u: Time)
    requires t <= u
    ensures VolumeBefore(s, t) <= VolumeBefore(s, u)
  {
    if s != [] {
      VolumeBeforeMonotone(s[..|s| - 1], t, u);
    }
  }

  /**
   * When the bars before position `k` are exactly those earlier than `t`,
   * the volume before `t` is the volume of the first `k` bars.
   */
  lemma {:induction false} VolumeBeforeSplit(s: seq<Bar>, t: Time, k: nat)
    requires k <= |s|
    requires forall i :: 0 <= i < k ==> s[i].time < t
    requires forall i :: k <= i < |s| ==> t <= s[i].time
    ensures VolumeBefore(s, t) == TotalVolume(s[..k])
  {
    if s != [] {
      var init := s[..|s| - 1];
      if k == |s| {
        VolumeBeforeSplit(init, t, k - 1);
        assert init[..k - 1] == s[..k - 1];
        assert s[..k] == s;
      } else {
        VolumeBeforeSplit(init, t, k);
        assert init[..k] == s[..k];
      }
    }
  }

  /**
   * On an ascending series, the volume before the time of bar `k` is the
   * volume of every bar ahead of it in the series.
   */
  lemma VolumeBeforeBar(s: seq<Bar>, k: nat)
    requires Ascending(s) && k < |s|
    ensures VolumeBefore(s, s[k].time) == TotalVolume(s[..k])
  {
    VolumeBeforeSplit(s, s[k].time, k);
  }
}
