/**
 * Calendar days as JavaScript's `Date` sees them: a day is numbered by its distance
 * from 1970-01-01, and out-of-range months and days roll over into the neighbouring
 * ones. Weekdays follow `getDay()`: Sunday is 0.
 */
module Calendar {
  import opened Wrappers
  import opened Text

  /** Days from 1970-01-01 to year `y`, month `m` (1..12), day `d` of the Gregorian calendar. */
  function DaysFromCivil(y: int, m: int, d: int): int
    requires 1 <= m <= 12
  {
    var y2 := if m <= 2 then y - 1 else y;
    var era := y2 / 400;
    var yoe := y2 - era * 400;
    var mp := if m > 2 then m - 3 else m + 9;
    var doy := (153 * mp + 2) / 5 + d - 1;
    var doe := yoe * 365 + yoe / 4 - yoe / 100 + doy;
    era * 146097 + doe - 719468
  }

  /**
   * The day `new Date(year, month - 1, day)` falls on: a two-digit year means 19xx,
   * and months and days outside their ranges carry into the next or previous ones.
   */
  function LocalDay(year: int, month: int, day: int): int {
    var y := if 0 <= year <= 99 then 1900 + year else year;
    var mi := month - 1;
    DaysFromCivil(y + mi / 12, mi % 12 + 1, 1) + day - 1
  }

  /** `getDay()` of a day number: 0 is Sunday, 6 is Saturday. */
  function Weekday(day: int): (w: nat)
    ensures w < 7
  {
    (day + 4) % 7
  }

  lemma NextDayNextWeekday(year: int, month: int, day: int)
    ensures LocalDay(year, month, day + 1) == LocalDay(year, month, day) + 1
    ensures Weekday(LocalDay(year, month, day + 1)) == (Weekday(LocalDay(year, month, day)) + 1) % 7
  {
  }

  /** Month 13 is January of the following year (for years `new Date` does not remap). */
  lemma MonthRollsOver(year: int, day: int)
    requires year >= 100
    ensures LocalDay(year, 13, day) == LocalDay(year + 1, 1, day)
  {
  }

  lemma KnownWeekdays()
    ensures LocalDay(1970, 1, 1) == 0 && Weekday(0) == 4
    ensures LocalDay(2024, 1, 1) == 19723 && Weekday(19723) == 1
  {
    assert DaysFromCivil(1970, 1, 1) == 4 * 146097 + (369 * 365 + 369 / 4 - 369 / 100 + 306) - 719468;
    assert DaysFromCivil(2024, 1, 1) == 5 * 146097 + (23 * 365 + 23 / 4 - 23 / 100 + 306) - 719468;
  }

  /**
   * `dateStr.split("-").map(Number)` followed by `new Date(year, month - 1, day)`:
   * `None` when one of the first three fields is not a number (an Invalid Date).
   */
  function DayOfSplitDate(s: string): Option<int> {
    var parts := Split(s, '-');
    if |parts| < 3 then None
    else
      match (NumberOf(parts[0]), NumberOf(parts[1]), NumberOf(parts[2]))
      case (Some(y), Some(m), Some(d)) => Some(LocalDay(y, m, d))
      case _ => None
  }

  /**
   * `new Date(s)` read on date-only ISO strings "YYYY-MM-DD" only: the month must be 01..12
   * and the day 01..31; a day past the end of its month rolls into the next month. The
   * date-times and legacy forms `Date` also reads are `None` here.
   */
  function DayOfIsoDate(s: string): (r: Option<int>)
    ensures r.Some? ==> |s| == 10 && s[4] == '-' && s[7] == '-'
  {
    if |s| == 10 && s[4] == '-' && s[7] == '-'
       && AllDigits(s[..4]) && AllDigits(s[5..7]) && AllDigits(s[8..])
    then
      var y, m, d := DigitsValue(s[..4]), DigitsValue(s[5..7]), DigitsValue(s[8..]);
      if 1 <= m <= 12 && 1 <= d <= 31 then Some(DaysFromCivil(y, m, 1) + d - 1) else None
    else None
  }

  /** Where the fields of a "YYYY-MM-DD" string sit. */
  lemma IsoShape(ys: string, ms: string, ds: string)
    requires |ys| == 4 && |ms| == 2 && |ds| == 2
    ensures var s := ys + "-" + ms + "-" + ds;
      |s| == 10 && s[4] == '-' && s[7] == '-' && s[..4] == ys && s[5..7] == ms && s[8..] == ds
  {
    var s := ys + "-" + ms + "-" + ds;
    assert s[..4] == ys;
    assert s[5..7] == ms;
    assert s[8..] == ds;
  }

  /** `DayOfIsoDate` on a string assembled from digit fields in range. */
  lemma IsoFields(ys: string, ms: string, ds: string)
    requires |ys| == 4 && |ms| == 2 && |ds| == 2 && AllDigits(ys) && AllDigits(ms) && AllDigits(ds)
    requires 1 <= DigitsValue(ms) <= 12 && 1 <= DigitsValue(ds) <= 31
    ensures DayOfIsoDate(ys + "-" + ms + "-" + ds)
         == Some(DaysFromCivil(DigitsValue(ys), DigitsValue(ms), 1) + DigitsValue(ds) - 1)
  {
    IsoShape(ys, ms, ds);
  }

  /** For a year `new Date` does not remap and a month in range, the local day is the civil one. */
  lemma LocalDayInRange(y: int, m: int, d: int)
    requires y >= 100 && 1 <= m <= 12
    ensures LocalDay(y, m, d) == DaysFromCivil(y, m, 1) + d - 1
  {
    assert (m - 1) / 12 == 0 && (m - 1) % 12 + 1 == m;
  }

  /** A year from 1000 to 9999 is written with four digits. */
  lemma FourDigitYear(y: nat)
    requires 1000 <= y <= 9999
    ensures |NatToString(y)| == 4 && AllDigits(NatToString(y)) && DigitsValue(NatToString(y)) == y
  {
    assert |NatToString(y / 10)| == 3 by {
      assert |NatToString(y / 100)| == 2;
    }
    DigitsValueOfNatToString(y);
  }

  /** The ISO form and the split form name the same day for every four-digit year. */
  lemma IsoAgreesWithSplit(y: nat, m: nat, d: nat)
    requires 1000 <= y <= 9999 && 1 <= m <= 12 && 1 <= d <= 31
    ensures DayOfIsoDate(NatToString(y) + "-" + Pad2(m) + "-" + Pad2(d)) == Some(LocalDay(y, m, d))
  {
    FourDigitYear(y);
    Pad2Value(m);
    Pad2Value(d);
    IsoFields(NatToString(y), Pad2(m), Pad2(d));
    LocalDayInRange(y, m, d);
  }
}
