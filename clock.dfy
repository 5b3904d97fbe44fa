/**
 * The text form of a bar's time, '%Y-%m-%d %H:%M:%S', and Python's string
 * comparison on it. The session code selects bars by comparing these
 * strings; this module shows that on one date the comparison is the
 * comparison of the seconds since midnight, which is what the other modules
 * use.
 */
module Clock {
  import opened Bars

  /** The ten characters '%Y-%m-%d' of the session date. */
  type DateText = s: string | |s| == 10 witness "2000-01-01"

  function Digit(n: nat): (c: char)
    requires n < 10
    ensures '0' <= c <= '9'
  {
    ('0' as int + n) as char
  }

  /** A zero-padded two-digit field such as '%H'. */
  function TwoDigits(n: nat): (r: string)
    requires n < 100
    ensures |r| == 2 && '0' <= r[0] <= '9' && '0' <= r[1] <= '9'
  {
    [Digit(n / 10), Digit(n % 10)]
  }

  /** The two digits read back as the number they were written from. */
  lemma TwoDigitsValue(n: nat)
    requires n < 100
    ensures 10 * (TwoDigits(n)[0] as int - '0' as int) + (TwoDigits(n)[1] as int - '0' as int) == n
  {
  }

  /** '%H:%M:%S' of a time of day. */
  function ClockText(t: Time): (r: string)
    ensures |r| == 8
  {
    var h, m, s := t / 3600, t % 3600 / 60, t % 3600 % 60;
    TwoDigits(h) + ([':'] + (TwoDigits(m) + ([':'] + TwoDigits(s))))
  }

  /** '%Y-%m-%d %H:%M:%S', the `Date` column of the intraday frame. */
  function Timestamp(d: DateText, t: Time): (r: string)
    ensures |r| == 19
  {
    d + ([' '] + ClockText(t))
  }

  /** Python's `s[i:j]` for non-negative bounds: out-of-range ends are clamped. */
  function Slice(s: string, i: nat, j: nat): (r: string)
    ensures |r| <= |s|
    ensures i <= j <= |s| ==> r == s[i..j]
    ensures j <= i ==> r == []
    ensures i <= |s| <= j ==> r == s[i..]
  {
    var lo, hi := if i < |s| then i else |s|, if j < |s| then j else |s|;
    if lo <= hi then s[lo..hi] else []
  }

  /** The `HOD_str[11:19]` cut of a timestamp is its time of day. */
  lemma TimeOfDaySlice(d: DateText, t: Time)
    ensures Slice(Timestamp(d, t), 11, 19) == ClockText(t)
  {
    assert Timestamp(d, t)[11..19] == ClockText(t);
  }

  /** Python's `a < b` on strings: lexicographic by code point. */
  function LexLess(a: string, b: string): (r: bool)
    ensures r ==> a != b
    ensures a != [] && b != [] && a[0] != b[0] ==> (r <==> a[0] < b[0])
  {
    if a == [] then b != []
    else if b == [] then false
    else if a[0] != b[0] then a[0] < b[0]
    else LexLess(a[1..], b[1..])
  }

  /** String `<` is a strict total order: of two different texts exactly one is the smaller. */
  lemma {:induction false} LexLessStrictTotal(a: string, b: string)
    ensures !(LexLess(a, b) && LexLess(b, a))
    ensures a != b ==> LexLess(a, b) || LexLess(b, a)
  {
    if a != [] && b != [] && a[0] == b[0] {
      LexLessStrictTotal(a[1..], b[1..]);
      if a[1..] == b[1..] {
        assert a == [a[0]] + a[1..] && b == [b[0]] + b[1..];
      }
    }
  }

  /** Comparing two strings that start with equal-length heads. */
  lemma {:induction false} LexLessHeads(x1: string, x2: string, y1: string, y2: string)
    requires |x1| == |y1|
    ensures LexLess(x1 + x2, y1 + y2) == if x1 == y1 then LexLess(x2, y2) else LexLess(x1, y1)
  {
    if x1 == [] {
      assert x1 + x2 == x2 && y1 + y2 == y2;
    } else {
      assert (x1 + x2)[0] == x1[0] && (y1 + y2)[0] == y1[0];
      if x1[0] == y1[0] {
        LexLessHeads(x1[1..], x2, y1[1..], y2);
        assert (x1 + x2)[1..] == x1[1..] + x2;
        assert (y1 + y2)[1..] == y1[1..] + y2;
        assert x1 == y1 <==> x1[1..] == y1[1..] by {
          if x1[1..] == y1[1..] { assert x1 == [x1[0]] + x1[1..]; assert y1 == [y1[0]] + y1[1..]; }
        }
      }
    }
  }

  lemma TwoDigitsOrder(n: nat, m: nat)
    requires n < 100 && m < 100
    ensures LexLess(TwoDigits(n), TwoDigits(m)) <==> n < m
    ensures TwoDigits(n) == TwoDigits(m) <==> n == m
  {
    var a, b := TwoDigits(n), TwoDigits(m);
    LexLessHeads(a[..1], a[1..], b[..1], b[1..]);
    assert a == a[..1] + a[1..] && b == b[..1] + b[1..];
    assert LexLess(a[1..], b[1..]) == (a[1] < b[1]);
    assert LexLess(a[..1], b[..1]) == (a[0] < b[0]);
  }

  /** Equal '%H:%M:%S' texts are equal times. */
  lemma ClockTextInjective(t: Time, u: Time)
    ensures ClockText(t) == ClockText(u) <==> t == u
  {
    var h1, m1, s1 := t / 3600, t % 3600 / 60, t % 3600 % 60;
    var h2, m2, s2 := u / 3600, u % 3600 / 60, u % 3600 % 60;
    assert t == 3600 * h1 + 60 * m1 + s1 && u == 3600 * h2 + 60 * m2 + s2;
    if ClockText(t) == ClockText(u) {
      TwoDigitsOrder(h1, h2);
      TwoDigitsOrder(m1, m2);
      TwoDigitsOrder(s1, s2);
      assert ClockText(t)[..2] == TwoDigits(h1) && ClockText(u)[..2] == TwoDigits(h2);
      assert ClockText(t)[3..5] == TwoDigits(m1) && ClockText(u)[3..5] == TwoDigits(m2);
      assert ClockText(t)[6..] == TwoDigits(s1) && ClockText(u)[6..] == TwoDigits(s2);
    }
  }

  /** Equal '%H:%M:%S' texts are equal times, and their order is the time order. */
  lemma ClockTextOrder(t: Time, u: Time)
    ensures LexLess(ClockText(t), ClockText(u)) <==> t < u
    ensures ClockText(t) == ClockText(u) <==> t == u
  {
    var h1, m1, s1 := t / 3600, t % 3600 / 60, t % 3600 % 60;
    var h2, m2, s2 := u / 3600, u % 3600 / 60, u % 3600 % 60;
    assert t == 3600 * h1 + 60 * m1 + s1 && u == 3600 * h2 + 60 * m2 + s2;
    TwoDigitsOrder(h1, h2);
    TwoDigitsOrder(m1, m2);
    TwoDigitsOrder(s1, s2);
    var c1, c2 := [':'] + TwoDigits(s1), [':'] + TwoDigits(s2);
    LexLessHeads([':'], TwoDigits(s1), [':'], TwoDigits(s2));
    var b1, b2 := TwoDigits(m1) + c1, TwoDigits(m2) + c2;
    LexLessHeads(TwoDigits(m1), c1, TwoDigits(m2), c2);
    var a1, a2 := [':'] + b1, [':'] + b2;
    LexLessHeads([':'], b1, [':'], b2);
    LexLessHeads(TwoDigits(h1), a1, TwoDigits(h2), a2);
    assert ClockText(t) == TwoDigits(h1) + a1 && ClockText(u) == TwoDigits(h2) + a2;
    ClockTextInjective(t, u);
  }

  /** On one date the `Date` strings order exactly as the times they stand for. */
  lemma TimestampOrder(d: DateText, t: Time, u: Time)
    ensures LexLess(Timestamp(d, t), Timestamp(d, u)) <==> t < u
  {
    LexLessHeads(d, [' '] + ClockText(t), d, [' '] + ClockText(u));
    LexLessHeads([' '], ClockText(t), [' '], ClockText(u));
    ClockTextOrder(t, u);
  }

  /**
   * A mask written as string comparisons on `Date`, as in
   * `(voldata['Date'] >= lo) & (voldata['Date'] < hi)`. On one date it
   * selects exactly the bars whose time is in the window.
   */
  predicate TextWithin(d: DateText, w: Window, t: Time)
    requires w.start < 86400 && w.end < 86400
    ensures TextWithin(d, w, t) <==> w.Contains(t)
  {
    TimestampOrder(d, t, w.start);
    TimestampOrder(d, w.start, t);
    TimestampOrder(d, t, w.end);
    TimestampOrder(d, w.end, t);
    var s, lo, hi := Timestamp(d, t), Timestamp(d, w.start), Timestamp(d, w.end);
    && (if w.startIncluded then !LexLess(s, lo) else LexLess(lo, s))
    && (if w.endIncluded then !LexLess(hi, s) else LexLess(s, hi))
  }
}
