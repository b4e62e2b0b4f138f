/** The week range of a year, as `DataReader.create_zeroes` computes it. */
module Weeks {
  import opened Globals

  /** Python's `int(a / b)` for b > 0: the quotient truncated toward zero. */
  function TruncDiv(a: int, b: int): int
    requires b > 0
  {
    if a >= 0 then a / b else -((-a) / b)
  }

  /** The truncated quotient rounds toward zero: down for a non-negative dividend, up for a negative one. */
  lemma TruncDivBounds(a: int, b: int)
    requires b > 0
    ensures var q := TruncDiv(a, b);
      (0 <= a ==> 0 <= q && q * b <= a < q * b + b) &&
      (a < 0 ==> q <= 0 && q * b - b < a <= q * b)
  {
  }

  /**
   * The first and last week index of year `time`. Every year but 6 starts 52 weeks after
   * the previous one, shifted by one week from year 7 on; year 6 is fixed at 1374..1426.
   */
  function WeekRange(time: int): (r: (int, int))
    ensures r.1 - r.0 + 1 == (if time == 6 then 53 else 52)
    ensures time == 1 ==> r == (Year1Beg, Year1End) == (1114, 1165)
    ensures time == 6 ==> r == (Year6Beg, Year6End) == (1374, 1426)
  {
    if time != 6 then
      (Year1Beg + 52 * (time - 1) + TruncDiv(time, 7), Year1Beg + 52 * time - 1 + TruncDiv(time, 7))
    else
      (Year6Beg, Year6End)
  }

  /** Each survey year's weeks follow the previous year's without a gap or an overlap. */
  lemma WeeksContiguous(time: int)
    requires 1 <= time < 11
    ensures WeekRange(time).1 + 1 == WeekRange(time + 1).0
  {
  }

  /** Week ranges of the survey years are disjoint: an earlier year ends before a later one begins. */
  lemma {:induction false} WeeksOrdered(s: int, t: int)
    requires 1 <= s < t <= 11
    ensures WeekRange(s).1 < WeekRange(t).0
  {
    WeeksContiguous(t - 1);
    if s < t - 1 {
      WeeksOrdered(s, t - 1);
    }
  }

  /** The survey years cover every week from 1114 to 1686. */
  lemma {:induction false} WeeksCovered(t: int, w: int)
    requires 1 <= t <= 11 && Year1Beg <= w <= WeekRange(t).1
    ensures exists s :: 1 <= s <= t && WeekRange(s).0 <= w <= WeekRange(s).1
  {
    if w < WeekRange(t).0 {
      WeeksContiguous(t - 1);
      WeeksCovered(t - 1, w);
    }
  }

  /** Every week index of the survey lies in exactly one year's range. */
  lemma WeekHasOneYear(w: int)
    requires WeekRange(1).0 <= w <= WeekRange(11).1
    ensures exists s :: 1 <= s <= 11 && WeekRange(s).0 <= w <= WeekRange(s).1
    ensures forall s, t :: 1 <= s <= 11 && 1 <= t <= 11 && WeekRange(s).0 <= w <= WeekRange(s).1 && WeekRange(t).0 <= w <= WeekRange(t).1 ==> s == t
  {
    WeeksCovered(11, w);
    forall s, t | 1 <= s <= 11 && 1 <= t <= 11 && WeekRange(s).0 <= w <= WeekRange(s).1 && WeekRange(t).0 <= w <= WeekRange(t).1
      ensures s == t
    {
      if s < t { WeeksOrdered(s, t); }
      if t < s { WeeksOrdered(t, s); }
    }
  }
}
