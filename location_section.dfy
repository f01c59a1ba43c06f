/**
 * The contact section of the landing page: stored "HH:mm" opening hours shown on a
 * 12-hour clock, and the business-hours rows built from the shop settings.
 */
module LocationSection {
  import opened Wrappers
  import opened Text
  import opened TimeFormat
  import opened Domain
  import opened Lists
  import DateTimePicker

  const DayNames: seq<string> := ["Sunday", "Monday", "Tuesday", "Wednesday", "Thursday", "Friday", "Saturday"]

  /** JavaScript's `%`: the remainder takes the sign of the dividend. */
  function JsRem(a: int, b: int): (r: int)
    requires b > 0
    ensures a >= 0 ==> r == a % b
    ensures -b < r < b
  {
    if a >= 0 then a % b else -((-a) % b)
  }

  /**
   * `formatTime`: "HH:mm" to "h:mm AM/PM". The minutes field is copied as it stands
   * ("undefined" when there is no colon); a `NaN` hour reads as 12 AM.
   */
  function FormatTime(time: string): string {
    var parts := Split(time, ':');
    var minutes := if |parts| > 1 then parts[1] else "undefined";
    match ParseInt(parts[0])
    case None => "12:" + minutes + " AM"
    case Some(hour) =>
      var r := JsRem(hour, 12);
      IntToString(if r == 0 then 12 else r) + ":" + minutes + " " + (if hour >= 12 then "PM" else "AM")
  }

  /** How "HH:mm" splits at its colon. */
  lemma SplitTime(hs: string, ms: string)
    requires AllDigits(hs) && AllDigits(ms)
    ensures Split(hs + ":" + ms, ':') == [hs, ms]
  {
    assert ':' !in hs && ':' !in ms;
    SplitPrefix(hs, ':', ms);
    SplitNoSep(ms, ':');
    assert hs + ":" + ms == hs + [':'] + ms;
  }

  /**
   * On a time "h:mm" with a non-negative decimal hour `h`, the hour goes onto the
   * 12-hour face (`hour % 12 || 12`, from 1 to 12), the minutes are kept verbatim, and the
   * marker is PM exactly from noon on.
   */
  lemma FormatTimeOfFields(hs: string, ms: string)
    requires |hs| > 0 && AllDigits(hs) && AllDigits(ms)
    ensures FormatTime(hs + ":" + ms)
         == NatToString(Hour12(DigitsValue(hs))) + ":" + ms + " " + (if DigitsValue(hs) >= 12 then "PM" else "AM")
    ensures 1 <= Hour12(DigitsValue(hs)) <= 12
  {
    SplitTime(hs, ms);
    ParseIntNumeral(hs, []);
    assert hs + [] == hs;
  }

  /** A stored opening time is shown exactly as the slot routes label that minute. */
  lemma FormatTimeOfStored(m: int)
    requires IsTimeOfDay(m)
    ensures FormatTime(FormatHHMM(m)) == Format12(m)
  {
    var hs, ms := Pad2(m / 60), Pad2(m % 60);
    Pad2Value(m / 60);
    FormatTimeOfFields(hs, ms);
    assert FormatHHMM(m) == hs + ":" + ms;
    DateTimePicker.Format12Parts(m);
    assert Format12(m) == NatToString(Hour12(m / 60)) + ":" + ms + " " + DayPeriod(m);
  }

  /** Reading the hour of a formatted time gives back the stored hour. */
  lemma HourRoundTrip(hs: string, ms: string)
    requires |hs| > 0 && AllDigits(hs) && AllDigits(ms) && DigitsValue(hs) < 24
    ensures DateTimePicker.GetHour24(FormatTime(hs + ":" + ms)) == Some(DigitsValue(hs))
  {
    var h := DigitsValue(hs);
    FormatTimeOfFields(hs, ms);
    DigitsValueOfNatToString(Hour12(h));
    DateTimePicker.GetHour24OfLabel(NatToString(Hour12(h)), ms, if h >= 12 then "PM" else "AM");
    DateTimePicker.Hour24Back(h);
  }

  // ---------------------------------------------------------------------------------
  // Business hours

  /** One row of the hours card; `closed` is the optional flag, `false` when absent. */
  datatype HoursRow = HoursRow(days: string, hours: string, closed: bool)

  /**
   * `[1, 2, 3, 4, 5].filter(d => !closedDays.has(d))` from day `d` on: the weekdays up to
   * Friday that are not closed, in weekday order.
   */
  function OpenWeekdaysFrom(d: int, closedDays: seq<int>): (r: seq<int>)
    ensures forall x :: x in r <==> d <= x <= 5 && x !in closedDays
    ensures forall i, j :: 0 <= i < j < |r| ==> r[i] < r[j]
    ensures forall i :: 0 <= i < |r| ==> d <= r[i] <= 5
    decreases 6 - d
  {
    if d > 5 then []
    else if d !in closedDays then [d] + OpenWeekdaysFrom(d + 1, closedDays)
    else OpenWeekdaysFrom(d + 1, closedDays)
  }

  /** The open weekdays, Monday to Friday. */
  function OpenWeekdays(closedDays: seq<int>): (r: seq<int>)
    ensures forall x :: x in r <==> 1 <= x <= 5 && x !in closedDays
    ensures forall i, j :: 0 <= i < j < |r| ==> r[i] < r[j]
    ensures forall i :: 0 <= i < |r| ==> 1 <= r[i] <= 5
  {
    OpenWeekdaysFrom(1, closedDays)
  }

  /** All the weekdays from `d` are kept exactly when none of them is closed. */
  lemma {:induction false} OpenWeekdaysAll(d: int, closedDays: seq<int>)
    requires 1 <= d <= 6
    ensures |OpenWeekdaysFrom(d, closedDays)| <= 6 - d
    ensures |OpenWeekdaysFrom(d, closedDays)| == 6 - d <==> forall x :: d <= x <= 5 ==> x !in closedDays
    decreases 6 - d
  {
    if d <= 5 {
      OpenWeekdaysAll(d + 1, closedDays);
      var rest := OpenWeekdaysFrom(d + 1, closedDays);
      if d in closedDays {
        assert OpenWeekdaysFrom(d, closedDays) == rest;
      } else {
        assert OpenWeekdaysFrom(d, closedDays) == [d] + rest;
        if forall x :: d + 1 <= x <= 5 ==> x !in closedDays {
          assert forall x :: d <= x <= 5 ==> x !in closedDays;
        }
      }
    }
  }

  /** The names of some days of the week. */
  function Names(days: seq<int>): (r: seq<string>)
    requires forall i :: 0 <= i < |days| ==> 0 <= days[i] < 7
    ensures |r| == |days| && forall i :: 0 <= i < |days| ==> r[i] == DayNames[days[i]]
  {
    seq(|days|, i requires 0 <= i < |days| => DayNames[days[i]])
  }

  /** The row of one weekend day: its hours, or "Closed" with the flag set. */
  function WeekendRow(name: string, day: int, closedDays: seq<int>, span: string): HoursRow {
    if day !in closedDays then HoursRow(name, span, false) else HoursRow(name, "Closed", true)
  }

  /** The weekday row: "Monday - Friday" when all five are open, the open names otherwise, none when all are closed. */
  function WeekdayRows(open: seq<int>, span: string): (r: seq<HoursRow>)
    requires forall i :: 0 <= i < |open| ==> 1 <= open[i] <= 5
    ensures |r| <= 1
  {
    if |open| == 5 then [HoursRow("Monday - Friday", span, false)]
    else if |open| > 0 then [HoursRow(Join(Names(open), ", "), span, false)]
    else []
  }

  /** The "open - close" text of an open row. */
  function HoursSpan(s: ShopSettings): string {
    FormatTime(s.openTime) + " - " + FormatTime(s.closeTime)
  }

  /** `getBusinessHours`: the weekday row when any weekday is open, then Saturday, then Sunday. */
  function BusinessHours(settings: Option<ShopSettings>): (r: seq<HoursRow>)
    ensures settings.None? ==> r == []
    ensures settings.Some? ==> 2 <= |r| <= 3
  {
    match settings
    case None => []
    case Some(s) =>
      WeekdayRows(OpenWeekdays(s.closedDays), HoursSpan(s))
      + [WeekendRow("Saturday", 6, s.closedDays, HoursSpan(s))] + [WeekendRow("Sunday", 0, s.closedDays, HoursSpan(s))]
  }

  /** `getBusinessHours`, pushing the rows one by one. */
  method GetBusinessHours(settings: Option<ShopSettings>) returns (hours: seq<HoursRow>)
    ensures hours == BusinessHours(settings)
  {
    if settings.None? {
      return [];
    }
    var closedDays := settings.value.closedDays;
    var openTime := FormatTime(settings.value.openTime);
    var closeTime := FormatTime(settings.value.closeTime);
    var span := openTime + " - " + closeTime;
    assert span == HoursSpan(settings.value);
    hours := [];
    var openWeekdays := OpenWeekdays(closedDays);
    if |openWeekdays| == 5 {
      hours := hours + [HoursRow("Monday - Friday", span, false)];
    } else if |openWeekdays| > 0 {
      hours := hours + [HoursRow(Join(Names(openWeekdays), ", "), span, false)];
    }
    assert hours == WeekdayRows(openWeekdays, span);
    if 6 !in closedDays {
      hours := hours + [HoursRow("Saturday", span, false)];
    } else {
      hours := hours + [HoursRow("Saturday", "Closed", true)];
    }
    if 0 !in closedDays {
      hours := hours + [HoursRow("Sunday", span, false)];
    } else {
      hours := hours + [HoursRow("Sunday", "Closed", true)];
    }
    assert hours == WeekdayRows(openWeekdays, span) + [WeekendRow("Saturday", 6, closedDays, span)]
      + [WeekendRow("Sunday", 0, closedDays, span)];
  }

  /** The last two rows are Saturday and Sunday, closed exactly when the day is a closed day. */
  lemma WeekendRows(s: ShopSettings)
    ensures var r := BusinessHours(Some(s)); var sat := r[|r| - 2]; var sun := r[|r| - 1];
      sat.days == "Saturday" && (sat.closed <==> 6 in s.closedDays) && (sat.closed <==> sat.hours == "Closed")
      && sun.days == "Sunday" && (sun.closed <==> 0 in s.closedDays) && (sun.closed <==> sun.hours == "Closed")
  {
    var open := FormatTime(s.openTime);
    var span := HoursSpan(s);
    assert span[|open| + 1] == '-' && '-' !in "Closed";
  }

  /**
   * There is a weekday row exactly when some weekday is open; it reads "Monday - Friday"
   * exactly when all five are open.
   */
  lemma WeekdayRow(s: ShopSettings)
    ensures var r := BusinessHours(Some(s));
      (|r| == 3 <==> exists d :: 1 <= d <= 5 && d !in s.closedDays)
      && (|r| == 3 ==> !r[0].closed)
      && (|r| == 3 && r[0].days == "Monday - Friday" <==> forall d :: 1 <= d <= 5 ==> d !in s.closedDays)
  {
    var open := OpenWeekdays(s.closedDays);
    OpenWeekdaysAll(1, s.closedDays);
    if |open| > 0 {
      assert open[0] in open;
    }
    if exists d :: 1 <= d <= 5 && d !in s.closedDays {
      var d :| 1 <= d <= 5 && d !in s.closedDays;
      assert d in open;
    }
    if 0 < |open| < 5 {
      NamesNotWeekRange(open);
    }
  }

  /** A list of some but not all weekdays never joins to the literal "Monday - Friday". */
  lemma NamesNotWeekRange(open: seq<int>)
    requires 0 < |open| && forall i :: 0 <= i < |open| ==> 1 <= open[i] <= 5
    ensures Join(Names(open), ", ") != "Monday - Friday"
  {
    var names := Names(open);
    if |names| == 1 {
      assert Join(names, ", ") == DayNames[open[0]];
    } else {
      var j := Join(names, ", ");
      assert j == names[0] + ", " + Join(names[1..], ", ");
      var n := |names[0]|;
      assert j[n] == ',';
      assert n <= 9;
    }
  }
}
