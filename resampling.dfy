/**
 * `resample(w, closed='left', label='left').agg(Open first, High max,
 * Low min, Close last, Volume sum)` on one session's bars. Buckets are
 * [q·w, (q+1)·w) counted from midnight, and each is labelled with its left
 * edge. Only buckets that hold at least one bar produce a row.
 */
module Resampling {
  import opened Bars

  /**
   * The left edge of the width-`w` bucket that holds `t`, counting buckets
   * from midnight: the largest multiple of `w` not after `t`. It is the
   * label pandas gives the bucket.
   */
  function BucketStart(t: Time, w: nat): (k: Time)
    requires w > 0
    ensures k <= t < k + w
    decreases t
  {
    if t < w then 0 else w + BucketStart(t - w, w)
  }

  /** A label is a bucket's left edge: it is its own bucket start. */
  predicate Aligned(k: Time, w: nat)
    requires w > 0
  {
    BucketStart(k, w) == k
  }

  /** The bucket is determined by containment: an aligned `k` with k <= t < k + w is the start of t's bucket. */
  lemma {:induction false} BucketUnique(t: Time, w: nat, k: Time)
    requires w > 0 && Aligned(k, w) && k <= t < k + w
    ensures BucketStart(t, w) == k
    decreases t
  {
    if t >= w {
      assert k >= w;
      BucketUnique(t - w, w, k - w);
    }
  }

  /** Bucket starts are monotone in time, and two different ones are at least a width apart. */
  lemma {:induction false} BucketOrder(t: Time, u: Time, w: nat)
    requires w > 0 && t <= u
    ensures BucketStart(t, w) <= BucketStart(u, w)
    ensures BucketStart(t, w) != BucketStart(u, w) ==> BucketStart(t, w) + w <= BucketStart(u, w)
    decreases t
  {
    if t >= w {
      BucketOrder(t - w, u - w, w);
    }
  }

  /** Every bucket start is aligned. */
  lemma {:induction false} BucketStartAligned(t: Time, w: nat)
    requires w > 0
    ensures Aligned(BucketStart(t, w), w)
    decreases t
  {
    if t >= w {
      BucketStartAligned(t - w, w);
    }
  }

  /** The bucket [k, k + w) as a window on times. */
  function BucketWindow(k: Time, w: nat): Window {
    Window(k, true, k + w, false)
  }

  /** For an aligned `k`, the window [k, k + w) holds exactly the times whose bucket starts at `k`. */
  lemma InBucketWindow(t: Time, w: nat, k: Time)
    requires w > 0 && Aligned(k, w)
    ensures BucketWindow(k, w).Contains(t) <==> BucketStart(t, w) == k
  {
    if BucketWindow(k, w).Contains(t) {
      BucketUnique(t, w, k);
    }
  }

  /** 'High': 'max' over a non-empty bucket. */
  function MaxHigh(g: seq<Bar>): (h: real)
    requires |g| > 0
    ensures forall x :: x in g ==> x.high <= h
    ensures exists x :: x in g && x.high == h
  {
    if |g| == 1 then g[0].high
    else
      var rest := MaxHigh(g[..|g| - 1]);
      assert g == g[..|g| - 1] + [g[|g| - 1]];
      if g[|g| - 1].high > rest then g[|g| - 1].high else rest
  }

  /** 'Low': 'min' over a non-empty bucket. */
  function MinLow(g: seq<Bar>): (l: real)
    requires |g| > 0
    ensures forall x :: x in g ==> l <= x.low
    ensures exists x :: x in g && x.low == l
  {
    if |g| == 1 then g[0].low
    else
      var rest := MinLow(g[..|g| - 1]);
      assert g == g[..|g| - 1] + [g[|g| - 1]];
      if g[|g| - 1].low < rest then g[|g| - 1].low else rest
  }

  /**
   * The row of one bucket labelled `k`: Open of its first bar, highest
   * High, lowest Low, Close of its last bar, and the sum of its volumes.
   */
  function Aggregate(g: seq<Bar>, k: Time): (b: Bar)
    requires |g| > 0
    ensures b.time == k
    ensures b.open == g[0].open && b.close == g[|g| - 1].close
    ensures b.volume == TotalVolume(g)
    ensures forall x :: x in g ==> b.low <= x.low && x.high <= b.high
    ensures (exists x :: x in g && x.high == b.high) && (exists x :: x in g && x.low == b.low)
  {
    Bar(k, g[0].open, MaxHigh(g), MinLow(g), g[|g| - 1].close, TotalVolume(g))
  }

  /** The length of the leading run of bars that share the first bar's bucket. */
  function RunLength(s: seq<Bar>, w: nat): (n: nat)
    requires w > 0 && |s| > 0
    ensures 1 <= n <= |s|
    ensures forall i :: 0 <= i < n ==> BucketStart(s[i].time, w) == BucketStart(s[0].time, w)
    ensures n < |s| ==> BucketStart(s[n].time, w) != BucketStart(s[0].time, w)
  {
    if |s| == 1 || BucketStart(s[1].time, w) != BucketStart(s[0].time, w) then 1
    else 1 + RunLength(s[1..], w)
  }

  /**
   * The resampled series: one row per run of consecutive bars in the same
   * bucket. On a series ordered by time each run is a whole bucket
   * (ResampleBuckets).
   */
  function Resample(s: seq<Bar>, w: nat): (r: seq<Bar>)
    requires w > 0
    ensures |r| <= |s|
    decreases |s|
  {
    if s == [] then []
    else
      var n := RunLength(s, w);
      [Aggregate(s[..n], BucketStart(s[0].time, w))] + Resample(s[n..], w)
  }

  /** Volume is conserved: the buckets' volumes add up to the bars' volumes. */
  lemma {:induction false} ResampleVolume(s: seq<Bar>, w: nat)
    requires w > 0
    ensures TotalVolume(Resample(s, w)) == TotalVolume(s)
    decreases |s|
  {
    if s != [] {
      var n := RunLength(s, w);
      var head := Aggregate(s[..n], BucketStart(s[0].time, w));
      var rest := Resample(s[n..], w);
      ResampleVolume(s[n..], w);
      assert Resample(s, w) == [head] + rest;
      TotalVolumeAppend([head], rest);
      TotalVolumeSplit(s, n);
      TotalVolumeSingle(head);
    }
  }

  /** Every row is labelled with an aligned bucket start. */
  lemma {:induction false} LabelsAligned(s: seq<Bar>, w: nat)
    requires w > 0
    ensures forall b :: b in Resample(s, w) ==> Aligned(b.time, w)
    decreases |s|
  {
    if s != [] {
      var n := RunLength(s, w);
      var head := Aggregate(s[..n], BucketStart(s[0].time, w));
      LabelsAligned(s[n..], w);
      assert Resample(s, w) == [head] + Resample(s[n..], w);
      BucketStartAligned(s[0].time, w);
    }
  }

  /** Every row is labelled with the bucket of some bar. */
  lemma {:induction false} LabelsFromBars(s: seq<Bar>, w: nat)
    requires w > 0
    ensures forall b :: b in Resample(s, w) ==> exists x :: x in s && b.time == BucketStart(x.time, w)
    decreases |s|
  {
    if s != [] {
      var n := RunLength(s, w);
      var k := BucketStart(s[0].time, w);
      var head := Aggregate(s[..n], k);
      var rest := Resample(s[n..], w);
      LabelsFromBars(s[n..], w);
      assert Resample(s, w) == [head] + rest;
      forall b | b in Resample(s, w) ensures exists x :: x in s && b.time == BucketStart(x.time, w) {
        if b == head {
          assert s[0] in s;
        } else {
          assert b in rest;
          var x :| x in s[n..] && b.time == BucketStart(x.time, w);
          assert x in s;
        }
      }
    }
  }
  /** The row of a bar's bucket. */
  lemma {:induction false} RowOf(s: seq<Bar>, w: nat, x: Bar) returns (b: Bar)
    requires w > 0 && x in s
    ensures b in Resample(s, w) && b.time == BucketStart(x.time, w)
    decreases |s|
  {
    var n := RunLength(s, w);
    var head := Aggregate(s[..n], BucketStart(s[0].time, w));
    var rest := Resample(s[n..], w);
    assert Resample(s, w) == [head] + rest;
    var j :| 0 <= j < |s| && s[j] == x;
    if j < n {
      b := head;
    } else {
      assert s[n..][j - n] == x;
      b := RowOf(s[n..], w, x);
    }
  }

  /** Every bar's bucket has a row. */
  lemma BarsHaveLabels(s: seq<Bar>, w: nat)
    requires w > 0
    ensures forall x :: x in s ==> exists b :: b in Resample(s, w) && b.time == BucketStart(x.time, w)
  {
    forall x | x in s ensures exists b :: b in Resample(s, w) && b.time == BucketStart(x.time, w) {
      var b := RowOf(s, w, x);
    }
  }

  /** On an ascending series every bar after the leading run is in a bucket at least a width later. */
  lemma LaterBarsAfter(s: seq<Bar>, w: nat)
    requires w > 0 && Ascending(s) && |s| > 0
    ensures forall j :: RunLength(s, w) <= j < |s| ==>
              BucketStart(s[0].time, w) + w <= BucketStart(s[j].time, w)
  {
    var n := RunLength(s, w);
    forall j | n <= j < |s| ensures BucketStart(s[0].time, w) + w <= BucketStart(s[j].time, w) {
      BucketOrder(s[0].time, s[n].time, w);
      BucketOrder(s[n].time, s[j].time, w);
    }
  }

  /** When every bar's bucket starts at `m` or later, so does every row's label. */
  lemma {:induction false} LabelsAtLeast(s: seq<Bar>, w: nat, m: nat)
    requires w > 0
    requires forall x :: x in s ==> m <= BucketStart(x.time, w)
    ensures forall b :: b in Resample(s, w) ==> m <= b.time
    decreases |s|
  {
    if s != [] {
      var n := RunLength(s, w);
      var head := Aggregate(s[..n], BucketStart(s[0].time, w));
      var rest := Resample(s[n..], w);
      assert s[0] in s;
      forall x | x in s[n..] ensures m <= BucketStart(x.time, w) {
        assert x in s;
      }
      LabelsAtLeast(s[n..], w, m);
      assert Resample(s, w) == [head] + rest;
    }
  }

  /** On an ascending series every row after the first is labelled at least a width later. */
  lemma LaterRowsAfter(s: seq<Bar>, w: nat)
    requires w > 0 && Ascending(s) && |s| > 0
    ensures forall b :: b in Resample(s[RunLength(s, w)..], w) ==>
              BucketStart(s[0].time, w) + w <= b.time
  {
    var n := RunLength(s, w);
    var k := BucketStart(s[0].time, w);
    LaterBarsAfter(s, w);
    forall x | x in s[n..] ensures k + w <= BucketStart(x.time, w) {
      var j :| 0 <= j < |s[n..]| && s[n..][j] == x;
      assert s[n + j] == x;
    }
    LabelsAtLeast(s[n..], w, k + w);
  }

  /** On an ascending series the rows come out strictly ascending by label. */
  lemma {:induction false} ResampleAscending(s: seq<Bar>, w: nat)
    requires w > 0 && Ascending(s)
    ensures Ascending(Resample(s, w))
    decreases |s|
  {
    if s != [] {
      var n := RunLength(s, w);
      var head := Aggregate(s[..n], BucketStart(s[0].time, w));
      ResampleAscending(s[n..], w);
      LaterRowsAfter(s, w);
      AscendingCons(head, Resample(s[n..], w));
      assert Resample(s, w) == [head] + Resample(s[n..], w);
    }
  }

  /** The leading run lies wholly inside its own bucket. */
  lemma RunInBucket(s: seq<Bar>, w: nat)
    requires w > 0 && |s| > 0
    ensures Filter(s[..RunLength(s, w)], BucketWindow(BucketStart(s[0].time, w), w)) == s[..RunLength(s, w)]
  {
    var n := RunLength(s, w);
    var win := BucketWindow(BucketStart(s[0].time, w), w);
    forall j | 0 <= j < |s[..n]| ensures win.Contains(s[..n][j].time) {
      assert s[..n][j] == s[j];
    }
    FilterAll(s[..n], win);
  }

  /** On an ascending series nothing after the leading run lies in the first bucket. */
  lemma RestOutsideBucket(s: seq<Bar>, w: nat)
    requires w > 0 && Ascending(s) && |s| > 0
    ensures Filter(s[RunLength(s, w)..], BucketWindow(BucketStart(s[0].time, w), w)) == []
  {
    var n := RunLength(s, w);
    var win := BucketWindow(BucketStart(s[0].time, w), w);
    LaterBarsAfter(s, w);
    forall j | 0 <= j < |s[n..]| ensures !win.Contains(s[n..][j].time) {
      assert s[n..][j] == s[n + j];
    }
    FilterNone(s[n..], win);
  }

  /** On an ascending series the first bucket holds exactly the leading run. */
  lemma FirstBucket(s: seq<Bar>, w: nat)
    requires w > 0 && Ascending(s) && |s| > 0
    ensures Filter(s, BucketWindow(BucketStart(s[0].time, w), w)) == s[..RunLength(s, w)]
  {
    var n := RunLength(s, w);
    FilterSplit(s, n, BucketWindow(BucketStart(s[0].time, w), w));
    RunInBucket(s, w);
    RestOutsideBucket(s, w);
    assert s[..n] + [] == s[..n];
  }

  /** A bucket at least a width after the first holds only bars after the leading run. */
  lemma LaterBucket(s: seq<Bar>, w: nat, k: Time)
    requires w > 0 && |s| > 0
    requires BucketStart(s[0].time, w) + w <= k
    ensures Filter(s, BucketWindow(k, w)) == Filter(s[RunLength(s, w)..], BucketWindow(k, w))
  {
    var n := RunLength(s, w);
    var win := BucketWindow(k, w);
    forall j | 0 <= j < |s[..n]| ensures !win.Contains(s[..n][j].time) {
      assert s[..n][j] == s[j];
    }
    FilterNone(s[..n], win);
    FilterSplit(s, n, win);
    assert [] + Filter(s[n..], win) == Filter(s[n..], win);
  }

  /** A row is either the first run's row or a row of the rest. */
  lemma ResampleUnfold(s: seq<Bar>, w: nat, b: Bar)
    requires w > 0 && b in Resample(s, w)
    ensures s != []
    ensures b == Aggregate(s[..RunLength(s, w)], BucketStart(s[0].time, w)) || b in Resample(s[RunLength(s, w)..], w)
  {
  }

  /** On an ascending series the first row is the aggregation of exactly the bars of its bucket. */
  lemma FirstRowIsBucket(s: seq<Bar>, w: nat)
    requires w > 0 && Ascending(s) && |s| > 0
    ensures var b := Aggregate(s[..RunLength(s, w)], BucketStart(s[0].time, w));
      |Filter(s, BucketWindow(b.time, w))| > 0 && b == Aggregate(Filter(s, BucketWindow(b.time, w)), b.time)
  {
    FirstBucket(s, w);
  }

  /** On an ascending series, one row is the aggregation of exactly the bars of its bucket. */
  lemma {:induction false} RowIsBucket(s: seq<Bar>, w: nat, b: Bar)
    requires w > 0 && Ascending(s) && b in Resample(s, w)
    ensures |Filter(s, BucketWindow(b.time, w))| > 0
    ensures b == Aggregate(Filter(s, BucketWindow(b.time, w)), b.time)
    decreases |s|
  {
    ResampleUnfold(s, w, b);
    var n := RunLength(s, w);
    if b == Aggregate(s[..n], BucketStart(s[0].time, w)) {
      FirstRowIsBucket(s, w);
    } else {
      LaterRowsAfter(s, w);
      LaterBucket(s, w, b.time);
      AscendingSuffix(s, n);
      RowIsBucket(s[n..], w, b);
    }
  }

  /**
   * The reference definition of each row: on an ascending series, the row
   * labelled k aggregates exactly the bars whose time lies in [k, k + w).
   */
  lemma ResampleBuckets(s: seq<Bar>, w: nat)
    requires w > 0 && Ascending(s)
    ensures forall b :: b in Resample(s, w) ==>
              |Filter(s, BucketWindow(b.time, w))| > 0 &&
              b == Aggregate(Filter(s, BucketWindow(b.time, w)), b.time)
  {
    forall b | b in Resample(s, w)
      ensures |Filter(s, BucketWindow(b.time, w))| > 0
      ensures b == Aggregate(Filter(s, BucketWindow(b.time, w)), b.time)
    {
      RowIsBucket(s, w, b);
    }
  }

  /**
   * Each row's High is at least, and its Low at most, those of every bar in
   * its bucket (and, by Aggregate, equal to one of them).
   */
  lemma ResampleBounds(s: seq<Bar>, w: nat)
    requires w > 0 && Ascending(s)
    ensures forall b, x :: b in Resample(s, w) && x in s && BucketStart(x.time, w) == b.time ==>
              b.low <= x.low && x.high <= b.high
  {
    ResampleBuckets(s, w);
    LabelsAligned(s, w);
    var r := Resample(s, w);
    forall b, x | b in r && x in s && BucketStart(x.time, w) == b.time
      ensures b.low <= x.low && x.high <= b.high
    {
      InBucketWindow(x.time, w, b.time);
      assert x in Filter(s, BucketWindow(b.time, w));
    }
  }

  /** Resampling bars that keep low <= open, close <= high yields rows that keep it too. */
  lemma {:induction false} ResampleWellFormed(s: seq<Bar>, w: nat)
    requires w > 0
    requires forall x :: x in s ==> WellFormed(x)
    ensures forall b :: b in Resample(s, w) ==> WellFormed(b)
    decreases |s|
  {
    if s != [] {
      var n := RunLength(s, w);
      var g := s[..n];
      var head := Aggregate(g, BucketStart(s[0].time, w));
      ResampleWellFormed(s[n..], w);
      assert g[0] == s[0] && g[|g| - 1] == s[n - 1];
      assert s[0] in s && s[n - 1] in s;
      assert g[0] in g && g[|g| - 1] in g;
      assert WellFormed(head);
      assert Resample(s, w) == [head] + Resample(s[n..], w);
    }
  }

  /** A bucket holding a single bar, labelled with that bar's time, is that bar. */
  lemma AggregateSingle(b: Bar)
    ensures Aggregate([b], b.time) == b
  {
    TotalVolumeSingle(b);
    assert MaxHigh([b]) == b.high && MinLow([b]) == b.low;
  }

  /** With every bar on the grid and times strictly ascending, each run is one bar. */
  lemma AlignedRunLength(s: seq<Bar>, w: nat)
    requires w > 0 && Ascending(s) && |s| > 0
    requires forall x :: x in s ==> Aligned(x.time, w)
    ensures RunLength(s, w) == 1
  {
    if |s| > 1 {
      assert s[0] in s && s[1] in s;
      assert s[0].time < s[1].time;
    }
  }

  /** Bars already on the bucket grid, one per bucket, come back unchanged. */
  lemma {:induction false} ResampleAlignedIdentity(s: seq<Bar>, w: nat)
    requires w > 0 && Ascending(s)
    requires forall x :: x in s ==> Aligned(x.time, w)
    ensures Resample(s, w) == s
    decreases |s|
  {
    if s != [] {
      AlignedRunLength(s, w);
      assert s[0] in s;
      assert s[..1] == [s[0]];
      AggregateSingle(s[0]);
      ResampleAlignedIdentity(s[1..], w);
      assert s == [s[0]] + s[1..];
    }
  }
}
