/**
 * The date and time picker of the booking wizard: reading the hour out of a slot label,
 * the label shown on a slot button, the morning/afternoon/evening grouping of the slots,
 * and which calendar days may be picked.
 */
module DateTimePicker {
  import opened Wrappers
  import opened Text
  import opened Calendar
  import opened TimeFormat
  import opened Domain
  import opened Lists

  /** An AM/PM marker (either case) at index `p`. */
  predicate IsMarker(s: string, p: nat) {
    p + 2 <= |s| && (IsA(s[p]) || IsP(s[p])) && IsM(s[p + 1])
  }

  /** The length of a match of the pattern `\s*(AM|PM)\s*`, case-insensitive, starting at `i`, if one starts there. */
  function MarkerMatch(s: string, i: nat): (r: Option<nat>)
    requires i <= |s|
    ensures r.Some? ==> i + r.value <= |s|
  {
    var k := SpaceRun(s, i);
    if IsMarker(s, i + k) then Some(k + 2 + SpaceRun(s, i + k + 2)) else None
  }

  /** The leftmost match at or after `i`: its start and length. */
  function FirstMatch(s: string, i: nat): (r: Option<(nat, nat)>)
    requires i <= |s|
    ensures r.Some? ==> i <= r.value.0 && r.value.0 + r.value.1 <= |s| && MarkerMatch(s, r.value.0) == Some(r.value.1)
    ensures r.Some? ==> forall q :: i <= q < r.value.0 ==> MarkerMatch(s, q).None?
    ensures r.None? ==> forall q :: i <= q <= |s| ==> MarkerMatch(s, q).None?
    decreases |s| - i
  {
    match MarkerMatch(s, i)
    case Some(n) => Some((i, n))
    case None => if i == |s| then None else FirstMatch(s, i + 1)
  }

  /** `replace` of that pattern by "": the first marker goes, with the white space around it. */
  function RemoveMarker(s: string): (r: string)
    ensures |r| <= |s|
  {
    match FirstMatch(s, 0)
    case Some((i, n)) => s[..i] + s[i + n..]
    case None => s
  }

  /**
   * `getHour24`: the hour of a label such as "9:00 AM" on a 24-hour clock. `None` stands
   * for `NaN`, when no number starts the label.
   */
  function GetHour24(time: string): (r: Option<int>)
    ensures r.Some? ==> ParseInt(FirstField(RemoveMarker(time), ':')).Some?
  {
    var isPM := Contains(Upper(time), "PM");
    var isAM := Contains(Upper(time), "AM");
    match ParseInt(FirstField(RemoveMarker(time), ':'))
    case None => None
    case Some(hour) =>
      if isPM && hour != 12 then Some(hour + 12)
      else if isAM && hour == 12 then Some(0)
      else Some(hour)
  }

  /** `formatTimeDisplay`: the label without its AM/PM marker, trimmed. */
  function FormatTimeDisplay(time: string): (r: string)
    ensures |r| <= |time|
  {
    Trim(RemoveMarker(time))
  }

  /** The rule of `getHour24` on an hour `h` read from a label: PM adds 12 except at 12, and 12 AM is 0. */
  lemma GetHour24Cases(time: string, h: int)
    requires ParseInt(FirstField(RemoveMarker(time), ':')) == Some(h)
    ensures Contains(Upper(time), "PM") && h != 12 ==> GetHour24(time) == Some(h + 12)
    ensures Contains(Upper(time), "AM") && !Contains(Upper(time), "PM") && h == 12 ==> GetHour24(time) == Some(0)
    ensures !Contains(Upper(time), "AM") && !Contains(Upper(time), "PM") ==> GetHour24(time) == Some(h)
    ensures 1 <= h <= 12 && (Contains(Upper(time), "AM") != Contains(Upper(time), "PM")) ==> 0 <= GetHour24(time).value <= 23
  {
  }

  // ---------------------------------------------------------------------------------
  // Labels the slot routes emit

  /** The characters such a label is made of. */
  predicate LabelChar(c: char) {
    IsDigit(c) || c == ':' || c == ' ' || c == 'A' || c == 'P' || c == 'M'
  }

  lemma UpperOfLabel(s: string)
    requires forall i :: 0 <= i < |s| ==> LabelChar(s[i])
    ensures Upper(s) == s
  {
  }

  lemma {:induction false} FirstMatchFrom(s: string, i: nat, p: nat, n: nat)
    requires i <= p <= |s|
    requires forall q :: i <= q < p ==> MarkerMatch(s, q).None?
    requires MarkerMatch(s, p) == Some(n)
    ensures FirstMatch(s, i) == Some((p, n))
    decreases p - i
  {
    if i < p {
      FirstMatchFrom(s, i + 1, p, n);
    }
  }

  /** The hour and minute fields of `Format12(m)`, without the marker. */
  function ClockFace(m: int): (r: string)
    requires IsTimeOfDay(m)
  {
    NatToString(Hour12(m / 60)) + ":" + Pad2(m % 60)
  }

  lemma Format12Parts(m: int)
    requires IsTimeOfDay(m)
    ensures Format12(m) == ClockFace(m) + " " + DayPeriod(m)
    ensures |NatToString(Hour12(m / 60))| <= 2 && |ClockFace(m)| == |NatToString(Hour12(m / 60))| + 3
  {
    assert m % MinutesPerDay == m;
    NatToStringShort(Hour12(m / 60));
  }

  /** The marker of an emitted label is its last three characters: the space and "AM"/"PM". */
  lemma RemoveMarkerOfLabel(face: string, ap: string)
    requires |face| > 0 && forall i :: 0 <= i < |face| ==> IsDigit(face[i]) || face[i] == ':'
    requires ap == "AM" || ap == "PM"
    ensures RemoveMarker(face + " " + ap) == face
  {
    var s := face + " " + ap;
    var p := |face|;
    assert s[p] == ' ' && s[p + 1] == ap[0] && s[p + 2] == ap[1];
    assert SpaceRun(s, p + 1) == 0;
    assert SpaceRun(s, p) == 1;
    assert SpaceRun(s, p + 3) == 0;
    assert MarkerMatch(s, p) == Some(3);
    forall q | 0 <= q < p
      ensures MarkerMatch(s, q).None?
    {
      assert s[q] == face[q];
      assert SpaceRun(s, q) == 0;
    }
    FirstMatchFrom(s, 0, p, 3);
    assert s[..p] == face && s[p + 3..] == [];
  }

  lemma MarkerOfLabel(face: string, ap: string)
    requires forall i :: 0 <= i < |face| ==> IsDigit(face[i]) || face[i] == ':'
    requires ap == "AM" || ap == "PM"
    ensures var s := face + " " + ap;
      Upper(s) == s && (Contains(s, "PM") <==> ap == "PM") && (Contains(s, "AM") <==> ap == "AM")
  {
    var s := face + " " + ap;
    var pre := face + " ";
    assert s == pre + ap;
    UpperOfLabel(s);
    ContainsSuffix(pre, ap);
    if ap == "AM" {
      assert 'P' !in s;
      NotContainsWithoutFirstChar(s, "PM");
    } else {
      assert 'A' !in s;
      NotContainsWithoutFirstChar(s, "AM");
    }
  }

  lemma FaceChars(m: int)
    requires IsTimeOfDay(m)
    ensures |ClockFace(m)| > 0 && forall i :: 0 <= i < |ClockFace(m)| ==> IsDigit(ClockFace(m)[i]) || ClockFace(m)[i] == ':'
    ensures FirstField(ClockFace(m), ':') == NatToString(Hour12(m / 60))
  {
    var hs := NatToString(Hour12(m / 60));
    assert ':' !in hs;
    FirstFieldOf(hs, ':', Pad2(m % 60));
  }

  /** A clock face "h:mm" of digit fields holds only digits and the colon, and its first field is the hour. */
  lemma FaceOfFields(hs: string, ms: string)
    requires AllDigits(hs) && AllDigits(ms)
    ensures var face := hs + ":" + ms;
      (forall i :: 0 <= i < |face| ==> IsDigit(face[i]) || face[i] == ':') && FirstField(face, ':') == hs
  {
    var face := hs + ":" + ms;
    assert ':' !in hs;
    FirstFieldOf(hs, ':', ms);
    forall i | 0 <= i < |face|
      ensures IsDigit(face[i]) || face[i] == ':'
    {
      if i < |hs| {
        assert face[i] == hs[i];
      } else if i > |hs| {
        assert face[i] == ms[i - |hs| - 1];
      }
    }
  }

  /** `getHour24` on a label of the emitted shape, with hour field `hs` on the clock face. */
  lemma GetHour24OfLabel(hs: string, ms: string, ap: string)
    requires |hs| > 0 && AllDigits(hs) && AllDigits(ms)
    requires ap == "AM" || ap == "PM"
    ensures var h := DigitsValue(hs);
      GetHour24(hs + ":" + ms + " " + ap)
      == Some(if ap == "PM" && h != 12 then h + 12 else if ap == "AM" && h == 12 then 0 else h)
  {
    var face := hs + ":" + ms;
    var time := face + " " + ap;
    FaceOfFields(hs, ms);
    MarkerOfLabel(face, ap);
    RemoveMarkerOfLabel(face, ap);
    ParseIntNumeral(hs, []);
    assert hs + [] == hs;
    GetHour24Cases(time, DigitsValue(hs));
    assert time == hs + ":" + ms + " " + ap;
  }

  /** The 12-hour face and the day period give back the hour. */
  lemma Hour24Back(h: nat)
    requires h < 24
    ensures (if h >= 12 && Hour12(h) != 12 then Hour12(h) + 12 else if h < 12 && Hour12(h) == 12 then 0 else Hour12(h)) == h
  {
  }

  /** Reading the hour of a slot label the routes emit gives the hour of its minute. */
  lemma GetHour24OfFormat12(m: int)
    requires IsTimeOfDay(m)
    ensures GetHour24(Format12(m)) == Some(m / 60)
  {
    var h := m / 60;
    var hs, ms, ap := NatToString(Hour12(h)), Pad2(m % 60), DayPeriod(m);
    Format12Parts(m);
    assert Format12(m) == hs + ":" + ms + " " + ap;
    DigitsValueOfNatToString(Hour12(h));
    GetHour24OfLabel(hs, ms, ap);
    assert ap == "PM" <==> h >= 12;
    Hour24Back(h);
  }

  /** A slot button shows the hour and minutes of its label. */
  lemma DisplayOfFormat12(m: int)
    requires IsTimeOfDay(m)
    ensures FormatTimeDisplay(Format12(m)) == ClockFace(m)
  {
    Format12Parts(m);
    FaceChars(m);
    RemoveMarkerOfLabel(ClockFace(m), DayPeriod(m));
    TrimNoSpaceEnds(ClockFace(m));
  }

  // ---------------------------------------------------------------------------------
  // Grouping

  datatype Period = Morning | Afternoon | Evening

  /** The three filters: before noon, noon to before five, five onwards. */
  predicate InPeriod(hour: int, p: Period) {
    match p
    case Morning => hour < 12
    case Afternoon => hour >= 12 && hour < 17
    case Evening => hour >= 17
  }

  /** A slot passes the filter of `p`; a `NaN` hour passes none. */
  predicate SlotIn(slot: TimeSlot, p: Period) {
    var h := GetHour24(slot.time);
    h.Some? && InPeriod(h.value, p)
  }

  /** Every hour falls in exactly one period. */
  lemma ExactlyOnePeriod(hour: int)
    ensures InPeriod(hour, Morning) || InPeriod(hour, Afternoon) || InPeriod(hour, Evening)
    ensures !(InPeriod(hour, Morning) && InPeriod(hour, Afternoon))
    ensures !(InPeriod(hour, Morning) && InPeriod(hour, Evening))
    ensures !(InPeriod(hour, Afternoon) && InPeriod(hour, Evening))
  {
  }

  /** `timeSlots.filter(...)` for the period `p`. */
  function Group(slots: seq<TimeSlot>, p: Period): (r: seq<TimeSlot>)
    ensures forall x :: x in r <==> x in slots && SlotIn(x, p)
  {
    FilterMembers(slots, (x: TimeSlot) => SlotIn(x, p));
    Filter(slots, (x: TimeSlot) => SlotIn(x, p))
  }

  /** A slot whose label has a numeric hour. */
  predicate Numeric(slot: TimeSlot) { GetHour24(slot.time).Some? }

  /** Every period's list keeps the order of the slots: grouping distributes over concatenation. */
  lemma GroupAppend(a: seq<TimeSlot>, b: seq<TimeSlot>, p: Period)
    ensures Group(a + b, p) == Group(a, p) + Group(b, p)
  {
    FilterAppend(a, b, (x: TimeSlot) => SlotIn(x, p));
  }

  /** The three groups together hold every slot whose hour is a number, each once, and nothing else. */
  lemma GroupsPartition(slots: seq<TimeSlot>)
    ensures multiset(Group(slots, Morning)) + multiset(Group(slots, Afternoon)) + multiset(Group(slots, Evening))
         == multiset(Filter(slots, Numeric))
  {
    forall x: TimeSlot
      ensures Numeric(x) <==> SlotIn(x, Morning) || SlotIn(x, Afternoon) || SlotIn(x, Evening)
      ensures !(SlotIn(x, Morning) && SlotIn(x, Afternoon)) && !(SlotIn(x, Morning) && SlotIn(x, Evening))
        && !(SlotIn(x, Afternoon) && SlotIn(x, Evening))
    {
      if Numeric(x) {
        ExactlyOnePeriod(GetHour24(x.time).value);
      }
    }
    FilterSplit(slots, (x: TimeSlot) => SlotIn(x, Morning), (x: TimeSlot) => SlotIn(x, Afternoon),
                (x: TimeSlot) => SlotIn(x, Evening), Numeric);
  }

  /** The slot of minute `m` sits in the group of its hour. */
  lemma SlotOfMinuteIn(m: int, available: bool, p: Period)
    requires IsTimeOfDay(m)
    ensures SlotIn(TimeSlot(Format12(m), available), p) <==> InPeriod(m / 60, p)
  {
    GetHour24OfFormat12(m);
  }

  // ---------------------------------------------------------------------------------
  // Buttons and calendar

  /** A rendered slot button: its text, whether it is disabled, whether it is highlighted, and the time a click selects. */
  datatype SlotButton = SlotButton(text: string, disabled: bool, highlighted: bool, selects: string)

  /** `renderTimeSlots`: nothing for an empty group, else one button per slot in order. */
  function RenderGroup(slots: seq<TimeSlot>, selectedTime: string): (r: Option<seq<SlotButton>>)
    ensures r.None? <==> |slots| == 0
    ensures r.Some? ==> |r.value| == |slots|
    ensures r.Some? ==> forall k :: 0 <= k < |slots| ==>
      (r.value[k].disabled <==> !slots[k].available)
      && (r.value[k].highlighted <==> slots[k].time == selectedTime)
      && r.value[k].selects == slots[k].time
      && r.value[k].text == FormatTimeDisplay(slots[k].time)
  {
    if |slots| == 0 then None
    else
      Some(seq(|slots|, k requires 0 <= k < |slots| =>
        SlotButton(FormatTimeDisplay(slots[k].time), !slots[k].available, selectedTime == slots[k].time, slots[k].time)))
  }

  /** A `disabled` matcher of the calendar. */
  datatype DayMatcher = Before(day: int) | After(day: int) | DayOfWeek(weekdays: seq<int>)

  predicate MatchesDay(matcher: DayMatcher, day: int) {
    match matcher
    case Before(d) => day < d
    case After(d) => day > d
    case DayOfWeek(ws) => Weekday(day) in ws
  }

  /** `disabledDays` for the day `today` (the start of the current day). */
  function DisabledDays(today: int): seq<DayMatcher> {
    [Before(today), After(today + 30), DayOfWeek([0])]
  }

  /** A day is disabled when any matcher matches it. */
  predicate IsDisabled(matchers: seq<DayMatcher>, day: int) {
    exists k :: 0 <= k < |matchers| && MatchesDay(matchers[k], day)
  }

  /** The days that can be picked are today through 30 days ahead, Sundays excepted. */
  lemma SelectableDays(today: int, day: int)
    ensures !IsDisabled(DisabledDays(today), day) <==> today <= day <= today + 30 && Weekday(day) != 0
  {
    var ms := DisabledDays(today);
    if !(today <= day <= today + 30 && Weekday(day) != 0) {
      if day < today {
        assert MatchesDay(ms[0], day);
      } else if day > today + 30 {
        assert MatchesDay(ms[1], day);
      } else {
        assert MatchesDay(ms[2], day);
      }
    }
  }

  /** Inside the window a Saturday and the Monday after it can be picked, and the Sunday between them cannot. */
  lemma SundaySkipped(today: int, day: int)
    requires Weekday(day) == 6 && today <= day && day + 2 <= today + 30
    ensures !IsDisabled(DisabledDays(today), day)
    ensures IsDisabled(DisabledDays(today), day + 1)
    ensures !IsDisabled(DisabledDays(today), day + 2)
  {
    SelectableDays(today, day);
    SelectableDays(today, day + 1);
    SelectableDays(today, day + 2);
    assert MatchesDay(DisabledDays(today)[2], day + 1);
  }
}
