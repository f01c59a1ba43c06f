/**
 * Times of day as minutes since midnight, and the two string forms the system uses:
 * "HH:mm" (24-hour, how opening hours and work schedules are stored) and
 * "h:mm a" (12-hour with AM/PM, how slots are sent to the client and booked),
 * as date-fns `format` writes them and `parse` reads them.
 */
module TimeFormat {
  import opened Wrappers
  import opened Text

  const MinutesPerDay: int := 1440

  predicate IsTimeOfDay(m: int) { 0 <= m < MinutesPerDay }

  /** A stored "HH:mm" time: both fields zero-padded to two digits. */
  function FormatHHMM(m: int): (s: string)
    requires IsTimeOfDay(m)
    ensures |s| == 5 && s[2] == ':'
  {
    Pad2(m / 60) + ":" + Pad2(m % 60)
  }

  /** A field of one or two digits at index `i`, as the date-fns number tokens read it. */
  function Field2(s: string, i: nat): (n: nat)
    requires i <= |s|
    ensures n <= 2 && i + n <= |s| && AllDigits(s[i..i + n])
  {
    var r := DigitRun(s, i);
    var n := if r < 2 then r else 2;
    assert s[i..i + n] == s[i..i + r][..n];
    n
  }

  /** Only white space remains from index `i` (date-fns rejects any other leftover). */
  predicate OnlySpaceFrom(s: string, i: nat)
    requires i <= |s|
  {
    forall k :: i <= k < |s| ==> IsSpace(s[k])
  }

  /** date-fns `parse(s, "HH:mm")`: hour 0..23, minute 0..59, each one or two digits. */
  function ParseHHMM(s: string): (r: Option<int>)
    ensures r.Some? ==> IsTimeOfDay(r.value)
  {
    var n1 := Field2(s, 0);
    if n1 == 0 || n1 >= |s| || s[n1] != ':' then None
    else
      var n2 := Field2(s, n1 + 1);
      var h, mi := DigitsValue(s[..n1]), DigitsValue(s[n1 + 1..n1 + 1 + n2]);
      assert s[..n1] == s[0..n1];
      if n2 == 0 || !OnlySpaceFrom(s, n1 + 1 + n2) || h > 23 || mi > 59 then None
      else Some(h * 60 + mi)
  }

  /** The hour on a 12-hour clock face: 0 and 12 both read 12. */
  function Hour12(h: nat): (r: nat)
    ensures 1 <= r <= 12
  {
    if h % 12 == 0 then 12 else h % 12
  }

  /** The day period date-fns writes for token `a`. */
  function DayPeriod(m: int): string
    requires IsTimeOfDay(m)
  {
    if m / 60 < 12 then "AM" else "PM"
  }

  /**
   * date-fns `format(t, "h:mm a")` for a time `m` minutes past midnight; a time past
   * midnight reads as the clock time of the day it rolls over into, as a `Date` does.
   */
  function Format12(m: int): string {
    var t := m % MinutesPerDay;
    NatToString(Hour12(t / 60)) + ":" + Pad2(t % 60) + " " + DayPeriod(t)
  }

  predicate IsA(c: char) { c == 'a' || c == 'A' }
  predicate IsP(c: char) { c == 'p' || c == 'P' }
  predicate IsM(c: char) { c == 'm' || c == 'M' }

  /**
   * date-fns `parse(s, "h:mm a")` on the labels the model reads: an hour 1..12, a colon, a
   * minute 0..59, one space and an AM/PM marker (either case); 12 AM is midnight and 12 PM
   * is noon. Other markers date-fns accepts, such as "a.m.", are `None` here.
   */
  function Parse12(s: string): (r: Option<int>)
    ensures r.Some? ==> IsTimeOfDay(r.value)
  {
    var n1 := Field2(s, 0);
    if n1 == 0 || n1 >= |s| || s[n1] != ':' then None
    else
      var n2 := Field2(s, n1 + 1);
      var p := n1 + 1 + n2;
      var h, mi := DigitsValue(s[..n1]), DigitsValue(s[n1 + 1..p]);
      if n2 == 0 || p + 3 > |s| || s[p] != ' ' || !(IsA(s[p + 1]) || IsP(s[p + 1])) || !IsM(s[p + 2])
         || !OnlySpaceFrom(s, p + 3) || h < 1 || h > 12 || mi > 59
      then None
      else Some(((h % 12) + (if IsP(s[p + 1]) then 12 else 0)) * 60 + mi)
  }

  lemma NatToStringShort(n: nat)
    requires n < 100
    ensures 1 <= |NatToString(n)| <= 2
    ensures n < 10 <==> |NatToString(n)| == 1
  {
  }

  lemma {:induction false} DigitRunAt(s: string, i: nat, n: nat)
    requires i + n <= |s| && AllDigits(s[i..i + n])
    requires i + n == |s| || !IsDigit(s[i + n])
    ensures DigitRun(s, i) == n
    decreases n
  {
    if n > 0 {
      assert s[i] == s[i..i + n][0];
      assert s[i + 1..i + n] == s[i..i + n][1..];
      DigitRunAt(s, i + 1, n - 1);
    }
  }

  lemma Field2At(s: string, i: nat, w: string)
    requires 1 <= |w| <= 2 && AllDigits(w)
    requires i + |w| <= |s| && s[i..i + |w|] == w
    requires i + |w| == |s| || !IsDigit(s[i + |w|])
    ensures Field2(s, i) == |w|
  {
    DigitRunAt(s, i, |w|);
  }

  /** Reading a stored "HH:mm" time gives back the minute it was written from. */
  lemma ParseFormatHHMM(m: int)
    requires IsTimeOfDay(m)
    ensures ParseHHMM(FormatHHMM(m)) == Some(m)
  {
    var s := FormatHHMM(m);
    var hs, ms := Pad2(m / 60), Pad2(m % 60);
    assert s[0..2] == hs && s[2] == ':' && s[3..5] == ms && |s| == 5;
    Field2At(s, 0, hs);
    Field2At(s, 3, ms);
    Pad2Value(m / 60);
    Pad2Value(m % 60);
    assert s[..2] == hs;
  }

  lemma ShapeChars(hs: string, ms: string, ap: string)
    requires |ms| == 2 && |ap| == 2
    ensures var s := hs + ":" + ms + " " + ap; var n1 := |hs|;
      |s| == n1 + 6 && s[0..n1] == hs && s[..n1] == hs && s[n1] == ':' && s[n1 + 1..n1 + 3] == ms
      && s[n1 + 3] == ' ' && s[n1 + 4] == ap[0] && s[n1 + 5] == ap[1]
  {
  }

  /** Parse12 on a string of the shape the slot routes emit. */
  lemma Parse12Shape(hs: string, ms: string, ap: string, h: nat, mi: nat)
    requires 1 <= |hs| <= 2 && AllDigits(hs) && DigitsValue(hs) == h && 1 <= h <= 12
    requires |ms| == 2 && AllDigits(ms) && DigitsValue(ms) == mi && mi <= 59
    requires ap == "AM" || ap == "PM"
    ensures Parse12(hs + ":" + ms + " " + ap)
         == Some(((h % 12) + (if ap == "PM" then 12 else 0)) * 60 + mi)
  {
    var s := hs + ":" + ms + " " + ap;
    var n1 := |hs|;
    ShapeChars(hs, ms, ap);
    Field2At(s, 0, hs);
    Field2At(s, n1 + 1, ms);
    assert OnlySpaceFrom(s, n1 + 6);
  }

  lemma Hour12Back(h: nat)
    requires h < 24
    ensures (Hour12(h) % 12) + (if h >= 12 then 12 else 0) == h
  {
  }

  /** A slot time emitted as "h:mm a" is read back by the booking route as the same minute. */
  lemma ParseFormat12(m: int)
    requires IsTimeOfDay(m)
    ensures Parse12(Format12(m)) == Some(m)
  {
    Format12Fields(m);
    ParseLabel(m / 60, m % 60);
  }

  /** Format12 of a time of day, field by field. */
  lemma Format12Fields(m: int)
    requires IsTimeOfDay(m)
    ensures Format12(m) == NatToString(Hour12(m / 60)) + ":" + Pad2(m % 60) + " " + (if m / 60 < 12 then "AM" else "PM")
    ensures m == (m / 60) * 60 + m % 60 && m / 60 < 24 && m % 60 < 60
  {
    assert m % MinutesPerDay == m;
  }

  /** Parse12 reads the label of hour `h` and minute `mi` back. */
  lemma ParseLabel(h: nat, mi: nat)
    requires h < 24 && mi < 60
    ensures Parse12(NatToString(Hour12(h)) + ":" + Pad2(mi) + " " + (if h < 12 then "AM" else "PM")) == Some(h * 60 + mi)
  {
    var ap := if h < 12 then "AM" else "PM";
    NatToStringShort(Hour12(h));
    DigitsValueOfNatToString(Hour12(h));
    Pad2Value(mi);
    Parse12Shape(NatToString(Hour12(h)), Pad2(mi), ap, Hour12(h), mi);
    ReadBack(h, mi, ap == "PM");
  }

  /** The minute Parse12 computes from the 12-hour fields of hour `h` and minute `mi`. */
  lemma ReadBack(h: nat, mi: nat, pm: bool)
    requires h < 24 && mi < 60 && pm == (h >= 12)
    ensures ((Hour12(h) % 12) + (if pm then 12 else 0)) * 60 + mi == h * 60 + mi
  {
    Hour12Back(h);
  }
}
