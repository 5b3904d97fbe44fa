# Session-bar analytics and resampling

A Dafny model of the numeric core of a one-stock data-collection script (`main.py`).
The script fetches a trading day's one-minute OHLCV bars and derives session figures from them:

- the *five-minute high*: the highest High between 09:30:00 and 09:35:00;
- the *high of day*: the time of the highest High of the regular session, 09:30:00 to 16:00:00;
- the *breakout bars*: bars after 09:35:00 and no later than 16:00:00 whose High exceeds the five-minute high;
- the *volume before breakout*: the volume of every bar of the day before the first breakout bar.

For charting, it also resamples the bars into 5-, 15-, 30- and 60-minute candles.

The modules are:

- `Bars` (bars.dfy): a bar, a time of day in seconds since midnight, time windows, selections by window (`.loc[mask]`), and volume sums.
- `Clock` (clock.dfy): the '%Y-%m-%d %H:%M:%S' text of a time and Python's string comparison on it. On one date, text order is time order. This is why the other modules compare seconds where the script compares `Date` strings.
- `Analytics` (analytics.dfy): `hod_volbo_5mins_high` as an imperative scan, and its post-processing: the first breakout, the volume before it, and the `HH:MM:SS` of the high of day.
- `Resampling` (resampling.dfy): `resample(rule, closed='left', label='left')` with the `resample_payload` aggregation. It is defined by grouping consecutive bars of one bucket. On a time-ordered series it is proved equal to the reference definition "the row labelled k aggregates the bars in [k, k + w)".
- `Charting` (charting.dfy): the lower-cased timeframe choice and the raw-or-resampled dispatch.
- `Wrappers` (wrappers.dfy): `Option` and `Result`.

A run of the script that raises models as an `Err`:

- `EmptyOpeningRange`: `idxmax` over an empty opening-range selection raises.
- `NoBreakout`: `min` over an empty breakout list raises.

The high-of-day `idxmax` cannot raise once the opening-range one succeeded, because the opening range lies inside the regular session.

The code performs no validation of the bars. The intraday request asks the feed for bars in ascending time order (main.py:81), and nothing re-sorts them afterwards. No operation of the model requires sorted or well-formed bars. The lemmas that need ordering take `Ascending` as a hypothesis.

## Model

| member | source | states |
|---|---|---|
| Bars.Filter | main.py:141-153 | a `.loc[mask]` selection keeps exactly the bars of the series whose time is in the window, and is never longer than the series |
| Bars.FilterAscending | main.py:141-153 | a selection from a time-ordered series is time-ordered |
| Bars.FilterAppend | main.py:141-153 | selecting from a concatenation is concatenating the selections |
| Bars.FilterSplit | main.py:141-153 | selecting from a series is selecting from its two parts either side of any position |
| Bars.FilterAll | main.py:141-153 | a mask true on every bar keeps the series unchanged |
| Bars.FilterNone | main.py:141-153 | a mask false on every bar keeps nothing |
| Bars.TotalVolume | main.py:299 | `Volume.sum()` is at least the volume of every bar in the frame |
| Bars.TotalVolumeAppend | main.py:195 | `Volume.sum()` is additive over concatenation |
| Bars.TotalVolumeSplit | main.py:195 | the volume of a series is the volume before any position plus the volume from it on |
| Bars.TotalVolumeSingle | main.py:195 | the volume of a single bar is that bar's volume |
| Bars.VolumeBefore | main.py:298-299 | the volume of the bars earlier than a time never exceeds the total volume |
| Bars.VolumeBeforeIsFilteredSum | main.py:298-299 | the volume before a time is `Volume.sum()` of the `Date < t` selection |
| Bars.VolumeBeforeMonotone | main.py:298-299 | a later cut-off never counts less volume |
| Bars.VolumeBeforeSplit | main.py:298-299 | when the bars before a position are exactly those earlier than the cut-off, the volume before it is the volume of that prefix |
| Bars.VolumeBeforeBar | main.py:298-299 | on a time-ordered series, the volume before bar k's time is the volume of the k bars ahead of it |
| Bars.AscendingSuffix | main.py:81 | every suffix of a time-ordered series is time-ordered |
| Bars.AscendingCons | main.py:81 | a bar earlier than every bar of an ordered series can be put in front of it and keep it ordered |
| Clock.TwoDigits | main.py:91 | a zero-padded two-digit field is exactly two decimal digits |
| Clock.TwoDigitsValue | main.py:91 | the two digits read back as the number they were written from |
| Clock.ClockText | main.py:91 | '%H:%M:%S' is eight characters |
| Clock.Timestamp | main.py:91 | '%Y-%m-%d %H:%M:%S' is nineteen characters |
| Clock.Slice | main.py:306 | Python's `s[i:j]` is `s[i..j]` when both ends are in range, the tail from `i` when `j` runs past the end, and empty when `j <= i` |
| Clock.TimeOfDaySlice | main.py:305-306 | `HOD_str[11:19]` of a timestamp is exactly its '%H:%M:%S' |
| Clock.LexLess | main.py:141-153 | string `<` never holds between equal texts, and is decided by the first characters when they differ |
| Clock.LexLessStrictTotal | main.py:295 | string `<` is a strict total order: never both ways, and one way between any two different texts, so `min` of the breakout list is well defined |
| Clock.TwoDigitsOrder | main.py:91 | zero-padded two-digit fields compare as text exactly as their numbers compare, and are equal exactly when the numbers are |
| Clock.ClockTextInjective | main.py:91 | two times have the same '%H:%M:%S' text exactly when they are equal |
| Clock.ClockTextOrder | main.py:91 | '%H:%M:%S' texts compare as text exactly as the times compare, and are equal exactly when the times are |
| Clock.TimestampOrder | main.py:295-298 | on one date, `Date` strings order (string `<`, and so `min`) exactly as their times |
| Clock.TextWithin | main.py:141-153 | a mask written as string comparisons on `Date` holds exactly when the time lies in the window, with each end inclusive or exclusive as written |
| Analytics.IdxMax | main.py:141-150 | idxmax over a selection is None exactly when the selection is empty; otherwise it is the row label of a highest High in the selection, with no earlier selected row as high |
| Analytics.FirstMaxUnique | main.py:143-149 | the row idxmax picks is unique |
| Analytics.FirstMaxEarliest | main.py:148-150 | on a time-ordered series, every session bar earlier than the high of day is strictly lower: ties go to the earliest bar |
| Analytics.OpeningRangeHigh | main.py:141-146 | the five-minute high exists exactly when a bar lies in [09:30:00, 09:35:00), and is then the largest High there |
| Analytics.BreakoutCandidates | main.py:153-157 | the breakout list holds exactly the times of bars in (09:35:00, 16:00:00] whose High exceeds the five-minute high |
| Analytics.CandidatesIncreasing | main.py:153-157 | on a time-ordered series, the breakout list is strictly increasing |
| Analytics.CandidatesOfSelection | main.py:153-157 | scanning the (09:35:00, 16:00:00] selection gives the same breakout list as looking at the whole series |
| Analytics.BreakoutTime | main.py:295 | `min` of the breakout list is None exactly when the list is empty; otherwise it is an element of the list no larger than any other |
| Analytics.BreakoutTimeIsFirst | main.py:295 | on an increasing breakout list, `min` is its first element |
| Analytics.PreBreakoutVolumeIsPrefix | main.py:298-299 | on a time-ordered series, the volume before the first breakout is the volume of every bar ahead of the breakout bar |
| Analytics.ScanSession | main.py:138-159 | fails exactly when the opening range is empty; otherwise it returns the largest opening-range High, the time of the first highest session bar, and exactly the breakout times |
| Analytics.SessionAnalytics | main.py:292-306 | fails with EmptyOpeningRange or NoBreakout exactly in those cases; otherwise it returns the five-minute high, the earliest breakout time, the volume of every bar before it, and the '%H:%M:%S' of the high of day |
| Resampling.BucketStart | main.py:127-129 | the bucket label of a time is at most the time, and the time is less than the label plus the width |
| Resampling.BucketUnique | main.py:127-129 | an aligned label whose bucket contains a time is that time's bucket label |
| Resampling.BucketOrder | main.py:127-129 | bucket labels are monotone in time, and two different ones are at least a width apart |
| Resampling.BucketStartAligned | main.py:127-129 | every bucket label is aligned |
| Resampling.InBucketWindow | main.py:127-129 | for an aligned label k, a time lies in [k, k + w) exactly when its bucket label is k |
| Resampling.MaxHigh | main.py:195 | 'max' of High is at least every High in the bucket and equal to one of them |
| Resampling.MinLow | main.py:195 | 'min' of Low is at most every Low in the bucket and equal to one of them |
| Resampling.Aggregate | main.py:195 | a row carries the bucket label, the first Open, the last Close, the summed Volume, and a High and Low bounding and attained by the bucket's bars |
| Resampling.RunLength | main.py:129 | the leading run is non-empty, shares the first bar's bucket, and stops at the first bar of a different bucket |
| Resampling.Resample | main.py:118-135 | the resampled series is never longer than the input |
| Resampling.ResampleVolume | main.py:195 | the rows' volumes add up to the bars' total volume |
| Resampling.LabelsAligned | main.py:127-129 | every row is labelled with a bucket's left edge |
| Resampling.LabelsFromBars | main.py:127-129 | every row's label is the bucket of some input bar: no empty bucket gets a row |
| Resampling.RowOf | main.py:127-129 | for any input bar, returns a row of the output labelled with that bar's bucket |
| Resampling.BarsHaveLabels | main.py:127-129 | every input bar's bucket has a row |
| Resampling.LabelsAtLeast | main.py:127-129 | when every bar's bucket starts at m or later, so does every row's label |
| Resampling.LaterBarsAfter | main.py:127-129 | on an ordered series, every bar after the leading run is in a bucket at least a width later |
| Resampling.LaterRowsAfter | main.py:127-129 | on an ordered series, every row after the first is labelled at least a width later |
| Resampling.ResampleAscending | main.py:129 | on a time-ordered series, the rows are strictly ordered by label |
| Resampling.RunInBucket | main.py:127-129 | the leading run lies wholly in its bucket's window |
| Resampling.RestOutsideBucket | main.py:127-129 | on an ordered series, no bar after the leading run lies in the first bucket's window |
| Resampling.FirstBucket | main.py:127-129 | on an ordered series, the first bucket's window selects exactly the leading run |
| Resampling.LaterBucket | main.py:127-129 | a bucket at least a width after the first selects nothing from the leading run |
| Resampling.ResampleUnfold | main.py:127-129 | a row is either the leading run's row or a row of the rest of the series |
| Resampling.FirstRowIsBucket | main.py:127-129 | on an ordered series, the first row aggregates exactly the bars of its bucket |
| Resampling.RowIsBucket | main.py:127-129 | on an ordered series, any one row aggregates exactly the bars of its bucket, and that selection is non-empty |
| Resampling.ResampleBuckets | main.py:127-129 | on an ordered series, each row labelled k is the aggregation of exactly the bars in [k, k + w), and that selection is non-empty |
| Resampling.ResampleBounds | main.py:195 | on a time-ordered series, each row's High is at least, and its Low at most, those of every bar in its bucket |
| Resampling.ResampleWellFormed | main.py:195 | bars with Low <= Open, Close <= High give rows with the same ordering |
| Resampling.AggregateSingle | main.py:195 | a bucket holding one bar, labelled with that bar's time, is that bar |
| Resampling.AlignedRunLength | main.py:129 | with every bar on the grid and times ordered, each run is one bar |
| Resampling.ResampleAlignedIdentity | main.py:129 | bars already on the bucket grid, one per bucket, come back unchanged |
| Charting.Label | main.py:382-386 | each timeframe's prompt text is non-empty and has no capital letters |
| Charting.Width | main.py:129 | every timeframe is a positive whole number of minutes, and only '1min' is one minute |
| Charting.LowerChar | main.py:382 | `.lower()` maps an ASCII capital to its small letter and keeps every other character |
| Charting.Lower | main.py:382 | `.lower()` keeps the length and lower-cases each character |
| Charting.ParseTimeframe | main.py:382-388 | a choice selects a timeframe only when its lower case is that timeframe's label |
| Charting.ParseLabel | main.py:382-388 | each timeframe's label selects that timeframe |
| Charting.ParseExactly | main.py:446-453 | a choice selects a timeframe exactly when its lower case is that timeframe's label |
| Charting.ParseIgnoringCase | main.py:446-453 | a choice selects a timeframe exactly when it spells that timeframe's label in any mix of ASCII upper and lower case |
| Charting.UpperCaseChoices | main.py:446-453 | "5MIN" selects five-minute bars, "1H" hourly bars, and "Q" no chart |
| Charting.ParseIgnoresCase | main.py:446-453 | upper and lower case select the same timeframe |
| Charting.ChartBars | main.py:382-388 | the charted bars are never more than the input, conserve the total volume, and stay ordered |
| Charting.ChartIsResample | main.py:382-388 | for ordered bars on whole minutes, the one-minute pass-through equals resampling at one minute, so every timeframe charts its resampling |
| Charting.ChartFor | main.py:446-453 | a choice draws a chart exactly when it selects a timeframe, and the chart conserves the total volume |
| Charting.ChartForPicksTimeframe | main.py:446-453 | a choice spelling a timeframe's label in any case draws exactly that timeframe's bars, and "1min" draws the raw series |
| Charting.ChartRows | main.py:446-453 | each row of a resampled chart aggregates exactly the one-minute bars of its bucket |

## Left out

- Fetching bars over HTTP, the UTC to US/Eastern conversion, the daily-bar lookups, web scraping, the SQL storage and the plotly charts are I/O. The model starts from a day's bars already in local time.
- The interactive menu and `validated_input_plot` are input loops and are not modelled. Their accepted lists hold stray entries, `'1h '` and `'n '`. With them, the summary menu's validator never accepts `1h`, so the hourly chart is reachable only from the visualization menu. The dispatch is modelled on the choice after the validator.
- Charting.ParseTimeframe: pandas is handed the choice as typed, not lower-cased. The model takes the bucket width from the lower-cased label.
- Vwap and N_of_trades are not among the aggregated columns and are not carried by a bar.
- Resampling.Resample: pandas also emits a row for each empty bucket between the first and last bar, with NaN prices and zero volume. The model emits rows only for buckets that hold a bar.
- Resampling.Resample: pandas sorts the bars by time before it resamples, and makes one row per occupied bucket. The model groups runs of consecutive bars in series order. On a series that is not in time order it can make two rows with the same label, and a row's Open and Close follow series order rather than time order. The script's bars arrive in ascending order (main.py:81), and the row-per-bucket results (Resampling.ResampleBuckets, Charting.ChartRows) are proved for ordered series only.
- Charting.Lower: Python's `str.lower()` covers all of Unicode. The model lower-cases ASCII letters only.
- The module-level lists `five_mins_high`, `HOD_editing` and `vol_b4_bo_time` are emptied just before the scan. The model returns them as the `Scan` record instead of appending to globals.
- Prices are exact reals, not floating point. Volumes are unbounded naturals, not 64-bit integers.
- `Date` values are compared as text. `Clock` proves that on one date this is the order of the seconds since midnight, and the other modules use the seconds.
