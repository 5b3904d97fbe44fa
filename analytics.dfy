/**
 * Session analytics on one day's one-minute bars: the five-minute opening
 * high, the time of the high of day, the times of the bars that break above
 * the opening high, and the volume traded before the first of them.
 */
module Analytics {
  import opened Wrappers
  import opened Bars
  import opened Clock

  /** Why the analytics stop without a record. */
  datatype Failure =
    | EmptyOpeningRange  // idxmax over an empty 09:30-09:35 selection
    | NoBreakout         // min over an empty list of breakout times

  /**
   * Row `i` of `s` lies in `w`, no row in `w` has a higher High, and every
   * earlier row in `w` has a strictly lower High: the row idxmax picks.
   */
  predicate IsFirstMax(s: seq<Bar>, w: Window, i: nat) {
    && i < |s| && w.Contains(s[i].time)
    && (forall j :: 0 <= j < |s| && w.Contains(s[j].time) ==> s[j].high <= s[i].high)
    && (forall j :: 0 <= j < i && w.Contains(s[j].time) ==> s[j].high < s[i].high)
  }

  /** `h` is the largest High among the rows of `s` in `w`. */
  predicate IsMaxHigh(s: seq<Bar>, w: Window, h: real) {
    && (forall j :: 0 <= j < |s| && w.Contains(s[j].time) ==> s[j].high <= h)
    && (exists j :: 0 <= j < |s| && w.Contains(s[j].time) && s[j].high == h)
  }

  /**
   * `s.loc[mask]['High'].idxmax()`: the selection keeps the row labels of `s`
   * (its positions), and idxmax returns the label of the first highest High.
   * On an empty selection pandas raises; here the answer is None.
   */
  function IdxMax(s: seq<Bar>, w: Window): (r: Option<nat>)
    ensures r.None? <==> forall i :: 0 <= i < |s| ==> !w.Contains(s[i].time)
    ensures r.Some? ==> IsFirstMax(s, w, r.value)
  {
    if s == [] then None
    else
      var last := |s| - 1;
      var rest := IdxMax(s[..last], w);
      if !w.Contains(s[last].time) then rest
      else if rest.None? || s[last].high > s[rest.value].high then Some(last)
      else rest
  }

  /** Only one row can be the first highest. */
  lemma FirstMaxUnique(s: seq<Bar>, w: Window, i: nat, j: nat)
    requires IsFirstMax(s, w, i) && IsFirstMax(s, w, j)
    ensures i == j
  {
  }

  /** On an ascending series, the first highest row is also the earliest in time. */
  lemma FirstMaxEarliest(s: seq<Bar>, w: Window, i: nat)
    requires Ascending(s) && IsFirstMax(s, w, i)
    ensures forall j :: 0 <= j < |s| && w.Contains(s[j].time) && s[j].time < s[i].time ==> s[j].high < s[i].high
  {
    forall j | 0 <= j < |s| && w.Contains(s[j].time) && s[j].time < s[i].time
      ensures s[j].high < s[i].high
    {
      assert j < i;
    }
  }

  /** The five-minute high: the highest High in [09:30:00, 09:35:00), if any bar is there. */
  function OpeningRangeHigh(s: seq<Bar>): (r: Option<real>)
    ensures r.None? <==> forall i :: 0 <= i < |s| ==> !OPENING_RANGE.Contains(s[i].time)
    ensures r.Some? ==> IsMaxHigh(s, OPENING_RANGE, r.value)
  {
    match IdxMax(s, OPENING_RANGE)
    case None => None
    case Some(i) => Some(s[i].high)
  }

  /** A bar after 09:35:00 and no later than 16:00:00 whose High exceeds `h`. */
  predicate IsBreakoutBar(b: Bar, h: real) {
    AFTER_OPENING_RANGE.Contains(b.time) && b.high > h
  }

  predicate Increasing(ts: seq<Time>) {
    forall i, j :: 0 <= i < j < |ts| ==> ts[i] < ts[j]
  }

  /** The times of the breakout bars of `s` over `h`, in series order. */
  function BreakoutCandidates(s: seq<Bar>, h: real): (r: seq<Time>)
    ensures |r| <= |s|
    ensures forall t :: t in r <==> exists b :: b in s && IsBreakoutBar(b, h) && b.time == t
  {
    if s == [] then []
    else
      var last := |s| - 1;
      var rest := BreakoutCandidates(s[..last], h);
      assert s == s[..last] + [s[last]];
      if IsBreakoutBar(s[last], h) then rest + [s[last].time] else rest
  }

  /** On an ascending series the breakout times come out strictly increasing. */
  lemma {:induction false} CandidatesIncreasing(s: seq<Bar>, h: real)
    requires Ascending(s)
    ensures Increasing(BreakoutCandidates(s, h))
  {
    if s != [] {
      var last := |s| - 1;
      CandidatesIncreasing(s[..last], h);
      var rest := BreakoutCandidates(s[..last], h);
      if IsBreakoutBar(s[last], h) {
        forall k | 0 <= k < |rest| ensures rest[k] < s[last].time {
          assert rest[k] in rest;
          var b :| b in s[..last] && IsBreakoutBar(b, h) && b.time == rest[k];
          var i :| 0 <= i < last && s[..last][i] == b;
        }
        assert BreakoutCandidates(s, h) == rest + [s[last].time];
      }
    }
  }

  /** Scanning only the (09:35:00, 16:00:00] selection finds the same breakout times. */
  lemma {:induction false} CandidatesOfSelection(s: seq<Bar>, h: real)
    ensures BreakoutCandidates(Filter(s, AFTER_OPENING_RANGE), h) == BreakoutCandidates(s, h)
  {
    if s != [] {
      var init, last := s[..|s| - 1], s[|s| - 1];
      CandidatesOfSelection(init, h);
      var f := Filter(init, AFTER_OPENING_RANGE);
      if AFTER_OPENING_RANGE.Contains(last.time) {
        assert Filter(s, AFTER_OPENING_RANGE) == f + [last];
        assert (f + [last])[..|f|] == f;
      }
    }
  }

  /** `min(vol_b4_bo_time)`; None where Python raises on an empty list. */
  function BreakoutTime(ts: seq<Time>): (r: Option<Time>)
    ensures r.None? <==> ts == []
    ensures r.Some? ==> r.value in ts && forall t :: t in ts ==> r.value <= t
  {
    if ts == [] then None
    else
      assert ts == [ts[0]] + ts[1..];
      match BreakoutTime(ts[1..])
      case None => Some(ts[0])
      case Some(m) => if m < ts[0] then Some(m) else Some(ts[0])
  }

  /** The minimum of increasing times is the first of them. */
  lemma BreakoutTimeIsFirst(ts: seq<Time>)
    requires Increasing(ts) && ts != []
    ensures BreakoutTime(ts) == Some(ts[0])
  {
    var m := BreakoutTime(ts).value;
    var k :| 0 <= k < |ts| && ts[k] == m;
    if k > 0 { assert ts[0] < ts[k]; }
  }

  /** `t` is the time of the earliest breakout bar of `s` over `h`. */
  predicate IsFirstBreakout(s: seq<Bar>, h: real, t: Time) {
    && (exists b :: b in s && IsBreakoutBar(b, h) && b.time == t)
    && (forall b :: b in s && IsBreakoutBar(b, h) ==> t <= b.time)
  }

  /**
   * On an ascending series the first breakout bar `k` is the first bar in
   * series order to break out, and the volume before the breakout time is
   * the volume of every bar ahead of it, pre-market bars included.
   */
  lemma PreBreakoutVolumeIsPrefix(s: seq<Bar>, h: real, t: Time)
    requires Ascending(s) && IsFirstBreakout(s, h, t)
    ensures exists k :: 0 <= k < |s| && s[k].time == t && IsBreakoutBar(s[k], h)
                        && (forall j :: 0 <= j < k ==> !IsBreakoutBar(s[j], h))
                        && VolumeBefore(s, t) == TotalVolume(s[..k])
  {
    var b :| b in s && IsBreakoutBar(b, h) && b.time == t;
    var k :| 0 <= k < |s| && s[k] == b;
    forall j | 0 <= j < k ensures !IsBreakoutBar(s[j], h) {
      assert s[j].time < s[k].time;
      assert s[j] in s;
    }
    VolumeBeforeBar(s, k);
  }

  /** The three lists the scan fills: `five_mins_high`, `HOD_editing` and `vol_b4_bo_time`. */
  datatype Scan = Scan(fiveMinsHigh: real, hodTime: Time, breakoutTimes: seq<Time>)

  /**
   * The scan over one session's bars: the five-minute high, the time of the
   * high of day, and the times of every bar after 09:35:00 and up to
   * 16:00:00 whose High exceeds the five-minute high.
   */
  method ScanSession(voldata: seq<Bar>) returns (r: Result<Scan, Failure>)
    ensures r.Err? <==> forall i :: 0 <= i < |voldata| ==> !OPENING_RANGE.Contains(voldata[i].time)
    ensures r.Err? ==> r.error == EmptyOpeningRange
    ensures r.Ok? ==> IsMaxHigh(voldata, OPENING_RANGE, r.value.fiveMinsHigh)
    ensures r.Ok? ==> exists i: nat :: IsFirstMax(voldata, REGULAR_SESSION, i) && voldata[i].time == r.value.hodTime
    ensures r.Ok? ==> r.value.breakoutTimes == BreakoutCandidates(voldata, r.value.fiveMinsHigh)
  {
    var fiveIdx := IdxMax(voldata, OPENING_RANGE);
    if fiveIdx.None? {
      return Err(EmptyOpeningRange);
    }
    var fiveHigh := voldata[fiveIdx.value].high;
    // The opening range lies inside the regular session, so this selection is not empty.
    assert REGULAR_SESSION.Contains(voldata[fiveIdx.value].time);
    var hodIdx := IdxMax(voldata, REGULAR_SESSION).value;
    var hod := voldata[hodIdx].time;

    var after := Filter(voldata, AFTER_OPENING_RANGE);
    var breakouts: seq<Time> := [];
    var row := 0;
    while row < |after|
      invariant row <= |after|
      invariant breakouts == BreakoutCandidates(after[..row], fiveHigh)
    {
      var bar := after[row];
      assert after[..row + 1][..row] == after[..row];
      if bar.high > fiveHigh {
        breakouts := breakouts + [bar.time];
      }
      row := row + 1;
    }
    assert after[..row] == after;
    CandidatesOfSelection(voldata, fiveHigh);
    r := Ok(Scan(fiveHigh, hod, breakouts));
  }

  /** The analytics fields of the session record: 'five_mins_high', 'vol_b4_bo' and 'hod'. */
  datatype SessionStats = SessionStats(fiveMinsHigh: real, breakoutTime: Time, volumeBeforeBreakout: nat, hod: string)

  /**
   * The scan followed by its post-processing: the breakout time is the
   * smallest breakout time, the pre-breakout volume sums every bar of the
   * day earlier than it, and the high of day is reported as '%H:%M:%S'.
   */
  method SessionAnalytics(voldata: seq<Bar>, date: DateText) returns (r: Result<SessionStats, Failure>)
    ensures r == Err(EmptyOpeningRange) <==> OpeningRangeHigh(voldata).None?
    ensures r == Err(NoBreakout) <==>
              OpeningRangeHigh(voldata).Some? &&
              forall i :: 0 <= i < |voldata| ==> !IsBreakoutBar(voldata[i], OpeningRangeHigh(voldata).value)
    ensures r.Ok? ==> OpeningRangeHigh(voldata) == Some(r.value.fiveMinsHigh)
    ensures r.Ok? ==> IsFirstBreakout(voldata, r.value.fiveMinsHigh, r.value.breakoutTime)
    ensures r.Ok? ==> r.value.volumeBeforeBreakout == VolumeBefore(voldata, r.value.breakoutTime)
    ensures r.Ok? ==> exists i: nat :: IsFirstMax(voldata, REGULAR_SESSION, i) && r.value.hod == ClockText(voldata[i].time)
  {
    var scan := ScanSession(voldata);
    if scan.Err? {
      return Err(scan.error);
    }
    var Scan(fiveHigh, hodTime, breakoutTimes) := scan.value;
    assert OpeningRangeHigh(voldata) == Some(fiveHigh) by {
      var a := OpeningRangeHigh(voldata).value;
      var i :| 0 <= i < |voldata| && OPENING_RANGE.Contains(voldata[i].time) && voldata[i].high == a;
      var j :| 0 <= j < |voldata| && OPENING_RANGE.Contains(voldata[j].time) && voldata[j].high == fiveHigh;
    }
    var first := BreakoutTime(breakoutTimes);
    if first.None? {
      forall i | 0 <= i < |voldata| ensures !IsBreakoutBar(voldata[i], fiveHigh) {
        assert voldata[i] in voldata && voldata[i].time !in breakoutTimes;
      }
      return Err(NoBreakout);
    }
    var breakout := first.value;
    forall b | b in voldata && IsBreakoutBar(b, fiveHigh) ensures breakout <= b.time {
      assert b.time in breakoutTimes;
    }
    var volume := VolumeBefore(voldata, breakout);
    var hod := Slice(Timestamp(date, hodTime), 11, 19);
    TimeOfDaySlice(date, hodTime);
    r := Ok(SessionStats(fiveHigh, breakout, volume, hod));
  }
}
