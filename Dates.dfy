/**
 * The observation-log date range. A date is a day number; `None` stands for a
 * JavaScript `Invalid Date`, whose time value is `NaN`, so every comparison with
 * it is false.
 */
module Dates {
  import opened Wrappers

  /** The value of a date picker: `null` (no bound) or a picked `Date`, which may be invalid. */
  datatype DateBound = Unset | Set(day: Option<int>)

  /** `!startDate || date >= startDate`. */
  function AtOrAfter(date: Option<int>, start: DateBound): (ok: bool)
    ensures start.Unset? ==> ok
    ensures start.Set? && (date.None? || start.day.None?) ==> !ok
    ensures start.Set? && start.day.Some? && date.Some? ==> (ok <==> date.value >= start.day.value)
  {
    start.Unset? || (date.Some? && start.day.Some? && date.value >= start.day.value)
  }

  /** `!endDate || date <= endDate`. */
  function AtOrBefore(date: Option<int>, end: DateBound): (ok: bool)
    ensures end.Unset? ==> ok
    ensures end.Set? && (date.None? || end.day.None?) ==> !ok
    ensures end.Set? && end.day.Some? && date.Some? ==> (ok <==> date.value <= end.day.value)
  {
    end.Unset? || (date.Some? && end.day.Some? && date.value <= end.day.value)
  }

  /** Both ends of the range, joined with AND as the page joins them. */
  function InRange(date: Option<int>, start: DateBound, end: DateBound): (ok: bool)
    ensures start.Unset? && end.Unset? ==> ok
    ensures (start.Set? || end.Set?) && date.None? ==> !ok
    ensures ok && start.Set? && end.Set? ==>
      date.Some? && start.day.Some? && end.day.Some? && start.day.value <= date.value <= end.day.value
  {
    AtOrAfter(date, start) && AtOrBefore(date, end)
  }

  /** With both bounds set to valid dates, a date is in range iff it is a valid date between them. */
  lemma InRangeBothSet(date: Option<int>, s: int, e: int)
    ensures InRange(date, Set(Some(s)), Set(Some(e))) <==> date.Some? && s <= date.value <= e
  {
  }

  /** With only a valid start bound, a date is in range iff it is a valid date at or after it. */
  lemma InRangeStartOnly(date: Option<int>, s: int)
    ensures InRange(date, Set(Some(s)), Unset) <==> date.Some? && date.value >= s
  {
  }

  /** With only a valid end bound, a date is in range iff it is a valid date at or before it. */
  lemma InRangeEndOnly(date: Option<int>, e: int)
    ensures InRange(date, Unset, Set(Some(e))) <==> date.Some? && date.value <= e
  {
  }

  /** An unset bound constrains nothing, so with neither bound set every date passes. */
  lemma InRangeUnset(date: Option<int>)
    ensures InRange(date, Unset, Unset)
  {
  }

  // ---------------------------------------------------------------------------
  // `new Date("YYYY-MM-DD")`

  predicate IsLeapYear(y: int)
  {
    y % 4 == 0 && (y % 100 != 0 || y % 400 == 0)
  }

  function DaysInMonth(y: int, m: int): int
    requires 1 <= m <= 12
  {
    if m == 2 then (if IsLeapYear(y) then 29 else 28)
    else if m == 4 || m == 6 || m == 9 || m == 11 then 30
    else 31
  }

  /** A number written in decimal digits only; `None` if some character is not a digit. */
  function Digits(s: string): (n: Option<nat>)
    ensures s == [] ==> n == Some(0)
    ensures n.Some? ==> forall i :: 0 <= i < |s| ==> '0' <= s[i] <= '9'
  {
    if s == [] then Some(0)
    else
      var last := s[|s| - 1];
      if !('0' <= last <= '9') then None
      else match Digits(s[..|s| - 1])
        case None => None
        case Some(high) => Some(10 * high + (last as int - '0' as int))
  }

  /**
   * A day number that orders dates as the calendar does. It is not a count of days
   * since an epoch: only comparisons between day numbers matter to the filter.
   */
  function DayNumber(y: nat, m: int, d: int): int
  {
    (y * 12 + (m - 1)) * 31 + (d - 1)
  }

  /** A calendar date. */
  predicate ValidDate(y: nat, m: int, d: int)
  {
    1 <= m <= 12 && 1 <= d <= DaysInMonth(y, m)
  }

  /** Earlier-or-same calendar date, comparing year, then month, then day. */
  predicate DateLessEq(y1: nat, m1: int, d1: int, y2: nat, m2: int, d2: int)
  {
    y1 < y2 || (y1 == y2 && (m1 < m2 || (m1 == m2 && d1 <= d2)))
  }

  /** Comparing day numbers is comparing calendar dates. */
  lemma DayNumberOrder(y1: nat, m1: int, d1: int, y2: nat, m2: int, d2: int)
    requires ValidDate(y1, m1, d1) && ValidDate(y2, m2, d2)
    ensures DayNumber(y1, m1, d1) <= DayNumber(y2, m2, d2) <==> DateLessEq(y1, m1, d1, y2, m2, d2)
  {
    var a, b := y1 * 12 + (m1 - 1), y2 * 12 + (m2 - 1);
    assert DayNumber(y1, m1, d1) == a * 31 + (d1 - 1);
    assert DayNumber(y2, m2, d2) == b * 31 + (d2 - 1);
    if a < b {
      assert a * 31 + 31 <= b * 31;
    } else if a > b {
      assert b * 31 + 31 <= a * 31;
    }
    if y1 < y2 {
      assert y1 * 12 + 12 <= y2 * 12;
    } else if y1 > y2 {
      assert y2 * 12 + 12 <= y1 * 12;
    }
  }

  /**
   * `new Date(s)` for a date-only ISO string `YYYY-MM-DD`: the day number of a
   * valid calendar date, otherwise an invalid date.
   */
  function ParseIsoDate(s: string): (date: Option<int>)
    ensures date.Some? ==> |s| == 10 && s[4] == '-' && s[7] == '-'
    ensures date.Some? ==> forall i :: 0 <= i < 10 && i != 4 && i != 7 ==> '0' <= s[i] <= '9'
  {
    if |s| != 10 || s[4] != '-' || s[7] != '-' then None
    else
      match (Digits(s[..4]), Digits(s[5..7]), Digits(s[8..]))
      case (Some(y), Some(m), Some(d)) =>
        assert forall i :: 0 <= i < 4 ==> s[..4][i] == s[i];
        assert forall i :: 5 <= i < 7 ==> s[5..7][i - 5] == s[i];
        assert forall i :: 8 <= i < 10 ==> s[8..][i - 8] == s[i];
        if ValidDate(y, m, d) then Some(DayNumber(y, m, d)) else None
      case _ => None
  }

  /** The value of a decimal digit character. */
  function DigitValue(c: char): int
  {
    c as int - '0' as int
  }

  /** Four digits read as a decimal number. */
  lemma DigitsFour(s: string)
    requires |s| == 4 && forall i :: 0 <= i < 4 ==> '0' <= s[i] <= '9'
    ensures Digits(s) == Some(1000 * DigitValue(s[0]) + 100 * DigitValue(s[1]) + 10 * DigitValue(s[2]) + DigitValue(s[3]))
  {
    assert s[..3][..2] == s[..2] && s[..2][..1] == s[..1] && s[..1][..0] == [];
    assert Digits(s[..1]) == Some(DigitValue(s[0]));
    assert Digits(s[..2]) == Some(10 * DigitValue(s[0]) + DigitValue(s[1]));
    assert Digits(s[..3]) == Some(100 * DigitValue(s[0]) + 10 * DigitValue(s[1]) + DigitValue(s[2]));
    assert s[..4] == s;
  }

  /** Two digits read as a decimal number. */
  lemma DigitsTwo(s: string)
    requires |s| == 2 && forall i :: 0 <= i < 2 ==> '0' <= s[i] <= '9'
    ensures Digits(s) == Some(10 * DigitValue(s[0]) + DigitValue(s[1]))
  {
    assert s[..1][..0] == [];
  }

  /** A well-formed `YYYY-MM-DD` string reads as year, month and day in decimal. */
  lemma ParseIsoDateDigits(s: string)
    requires |s| == 10 && s[4] == '-' && s[7] == '-'
    requires forall i :: 0 <= i < 10 && i != 4 && i != 7 ==> '0' <= s[i] <= '9'
    ensures var y := 1000 * DigitValue(s[0]) + 100 * DigitValue(s[1]) + 10 * DigitValue(s[2]) + DigitValue(s[3]);
      var m := 10 * DigitValue(s[5]) + DigitValue(s[6]);
      var d := 10 * DigitValue(s[8]) + DigitValue(s[9]);
      ParseIsoDate(s) == if ValidDate(y, m, d) then Some(DayNumber(y, m, d)) else None
  {
    DigitsFour(s[..4]);
    DigitsTwo(s[5..7]);
    DigitsTwo(s[8..]);
  }
}
