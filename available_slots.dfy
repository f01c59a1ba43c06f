/**
 * `GET /api/available-slots?date=YYYY-MM-DD&barberId=&duration=`: the day's slot list on
 * the shop's opening hours, each slot marked available unless it lies in the past (on
 * the current day only) or overlaps an active appointment.
 */
module AvailableSlotsRoute {
  import opened Wrappers
  import opened Text
  import opened Calendar
  import opened TimeFormat
  import opened Overlap
  import opened Domain
  import opened Store
  import opened SlotGrid

  /** The settings used when none are stored: 09:00 to 20:00, half-hour slots, closed on Sunday. */
  const DefaultSettings: ShopSettings := ShopSettings("", "", "", "", "", "09:00", "20:00", 30, [0])

  const ClosedMessage: string := "Shop is closed on this day"

  datatype SlotQuery = SlotQuery(date: Option<string>, barberId: Option<string>, duration: Option<string>)

  function EffectiveSettings(stored: Option<ShopSettings>): ShopSettings {
    if stored.Some? then stored.value else DefaultSettings
  }

  /** `parseInt(duration || "30")`; `None` is `NaN`. */
  function ServiceDuration(q: SlotQuery): Option<int> {
    ParseInt(if Given(q.duration) then q.duration.value else "30")
  }

  /** The queried day is the current one: `now` (milliseconds after its midnight) falls inside it. */
  predicate IsToday(nowMs: int) { 0 <= nowMs < 86_400_000 }

  /** Only a slot of the current day can be past. */
  predicate IsPast(m: int, nowMs: int) { IsToday(nowMs) && m * 60_000 < nowMs }

  /** Half-open overlap with a blocking span; a `NaN` end overlaps nothing. */
  predicate HasConflict(m: int, duration: Option<int>, spans: seq<Span>) {
    duration.Some? && AnyHalfOpen(Span(m, m + duration.value), spans)
  }

  /** The entry pushed for the slot starting at `m`, labelled by `fmt`. */
  function SlotAt(m: int, duration: Option<int>, spans: seq<Span>, nowMs: int, fmt: int -> string): TimeSlot {
    TimeSlot(fmt(m), !IsPast(m, nowMs) && !HasConflict(m, duration, spans))
  }

  /** The slots the loop pushes from `cur` on, in order. */
  function Slots(cur: int, close: int, step: int, duration: Option<int>, spans: seq<Span>, nowMs: int,
                 fmt: int -> string): (slots: seq<TimeSlot>)
    requires Ends(cur, close, step, duration)
    ensures |slots| == |Starts(cur, close, step, duration)|
    decreases close - cur
  {
    if Fits(cur, duration, close) then [SlotAt(cur, duration, spans, nowMs, fmt)] + Slots(cur + step, close, step, duration, spans, nowMs, fmt)
    else []
  }

  /** The day's slot list: the grid walked with the blocking appointments' spans, labelled "h:mm a". */
  function Grid(open: int, close: int, step: int, duration: Option<int>, apts: seq<Appointment>, day: int,
                barberId: Option<string>, nowMs: int): (slots: seq<TimeSlot>)
    requires Ends(open, close, step, duration)
    ensures |slots| == |Starts(open, close, step, duration)|
  {
    Slots(open, close, step, duration, BlockingSpans(apts, day, barberId), nowMs, Format12)
  }

  /** The k-th slot is the slot of the k-th start of the grid. */
  lemma {:induction false} SlotsAt(cur: int, close: int, step: int, duration: Option<int>, spans: seq<Span>, nowMs: int,
                                   fmt: int -> string)
    requires Ends(cur, close, step, duration)
    ensures forall k :: 0 <= k < |Slots(cur, close, step, duration, spans, nowMs, fmt)| ==>
      Slots(cur, close, step, duration, spans, nowMs, fmt)[k]
      == SlotAt(Starts(cur, close, step, duration)[k], duration, spans, nowMs, fmt)
    decreases close - cur
  {
    if Fits(cur, duration, close) {
      SlotsAt(cur + step, close, step, duration, spans, nowMs, fmt);
      var slots, starts := Slots(cur, close, step, duration, spans, nowMs, fmt), Starts(cur, close, step, duration);
      var rest, restStarts := Slots(cur + step, close, step, duration, spans, nowMs, fmt), Starts(cur + step, close, step, duration);
      assert slots == [SlotAt(cur, duration, spans, nowMs, fmt)] + rest;
      assert starts == [cur] + restStarts;
      forall k | 0 <= k < |slots|
        ensures slots[k] == SlotAt(starts[k], duration, spans, nowMs, fmt)
      {
        if k == 0 {
          assert slots[0] == SlotAt(cur, duration, spans, nowMs, fmt) && starts[0] == cur;
        } else {
          var j := k - 1;
          assert 0 <= j < |rest| && slots[k] == rest[j] && starts[k] == restStarts[j];
        }
      }
    }
  }

  /** The loop of the route only runs forever when a slot fits and the step is not positive. */
  predicate Terminates(stored: Option<ShopSettings>, q: SlotQuery) {
    var s := EffectiveSettings(stored);
    var day := if Given(q.date) then DayOfSplitDate(q.date.value) else None;
    var open, close := ParseHHMM(s.openTime), ParseHHMM(s.closeTime);
    (day.Some? && Weekday(day.value) !in s.closedDays && open.Some? && close.Some?)
    ==> Ends(open.value, close.value, s.slotDuration, ServiceDuration(q))
  }

  /** The response of the route, as a function of the stored data, the query and the clock. */
  function AvailableSlots(stored: Option<ShopSettings>, apts: seq<Appointment>, q: SlotQuery, nowMs: int): SlotsResponse
    requires Terminates(stored, q)
  {
    if !Given(q.date) then SlotError(400, "Date parameter is required")
    else
      var s := EffectiveSettings(stored);
      var day := DayOfSplitDate(q.date.value);
      if day.Some? && Weekday(day.value) in s.closedDays then SlotList([], Some(ClosedMessage))
      else if day.None? then SlotError(500, "Failed to fetch available slots")
      else
        match (ParseHHMM(s.openTime), ParseHHMM(s.closeTime))
        case (Some(open), Some(close)) =>
          var duration := ServiceDuration(q);
          SlotList(Grid(open, close, s.slotDuration, duration, apts, day.value, q.barberId, nowMs), None)
        case _ => SlotList([], None)
  }

  /** The body of one loop iteration: the past test, the conflict test and the entry pushed. */
  method MakeSlot(cur: int, duration: Option<int>, spans: seq<Span>, nowMs: int, fmt: int -> string)
    returns (slot: TimeSlot)
    ensures slot == SlotAt(cur, duration, spans, nowMs, fmt)
  {
    var isPast := IsToday(nowMs) && cur * 60_000 < nowMs;
    var hasConflict := duration.Some? && AnyHalfOpen(Span(cur, cur + duration.value), spans);
    var timeString := fmt(cur);
    slot := TimeSlot(timeString, !isPast && !hasConflict);
  }

  /** One iteration of the loop: the slot at `cur` joins the list and the rest starts one step on. */
  lemma SlotsStep(slots: seq<TimeSlot>, cur: int, close: int, step: int, duration: Option<int>, spans: seq<Span>,
                  nowMs: int, fmt: int -> string)
    requires Ends(cur, close, step, duration) && Fits(cur, duration, close)
    ensures Ends(cur + step, close, step, duration)
    ensures slots + Slots(cur, close, step, duration, spans, nowMs, fmt)
      == (slots + [SlotAt(cur, duration, spans, nowMs, fmt)]) + Slots(cur + step, close, step, duration, spans, nowMs, fmt)
  {
    var slot, rest := SlotAt(cur, duration, spans, nowMs, fmt), Slots(cur + step, close, step, duration, spans, nowMs, fmt);
    assert Slots(cur, close, step, duration, spans, nowMs, fmt) == [slot] + rest;
    assert slots + ([slot] + rest) == (slots + [slot]) + rest;
  }

  /** The slot loop of the route, labelling each slot with `fmt` (the route passes `Format12`). */
  method GenerateSlots(open: int, close: int, step: int, duration: Option<int>, spans: seq<Span>, nowMs: int,
                       fmt: int -> string)
    returns (slots: seq<TimeSlot>)
    requires Ends(open, close, step, duration)
    ensures slots == Slots(open, close, step, duration, spans, nowMs, fmt)
  {
    slots := [];
    var cur := open;
    while cur < close
      invariant Ends(cur, close, step, duration)
      invariant Slots(open, close, step, duration, spans, nowMs, fmt) == slots + Slots(cur, close, step, duration, spans, nowMs, fmt)
      decreases close - cur
    {
      if duration.Some? && cur + duration.value > close {
        break;
      }
      var slot := MakeSlot(cur, duration, spans, nowMs, fmt);
      SlotsStep(slots, cur, close, step, duration, spans, nowMs, fmt);
      slots := slots + [slot];
      cur := cur + step;
    }
    assert slots + [] == slots;
  }

  /** The route. */
  method GetAvailableSlots(db: Database, q: SlotQuery, nowMs: int) returns (r: SlotsResponse)
    requires Terminates(db.settings, q)
    ensures r == AvailableSlots(db.settings, db.appointments, q, nowMs)
  {
    if !Given(q.date) {
      return SlotError(400, "Date parameter is required");
    }
    var serviceDuration := ParseInt(if Given(q.duration) then q.duration.value else "30");
    var day := DayOfSplitDate(q.date.value);
    var settings := if db.settings.Some? then db.settings.value else DefaultSettings;
    if day.Some? && Weekday(day.value) in settings.closedDays {
      return SlotList([], Some(ClosedMessage));
    }
    if day.None? {
      return SlotError(500, "Failed to fetch available slots");
    }
    var existing := BlockingSpans(db.appointments, day.value, q.barberId);
    var openTime := ParseHHMM(settings.openTime);
    var closeTime := ParseHHMM(settings.closeTime);
    if openTime.None? || closeTime.None? {
      return SlotList([], None);
    }
    var slots := GenerateSlots(openTime.value, closeTime.value, settings.slotDuration, serviceDuration, existing, nowMs, Format12);
    return SlotList(slots, None);
  }

  // Properties of the route

  lemma MissingDateIsRejected(stored: Option<ShopSettings>, apts: seq<Appointment>, q: SlotQuery, nowMs: int)
    requires !Given(q.date)
    ensures AvailableSlots(stored, apts, q, nowMs) == SlotError(400, "Date parameter is required")
  {
  }

  /** A closed weekday gives an empty list with a notice, not an error. */
  lemma ClosedDayIsEmpty(stored: Option<ShopSettings>, apts: seq<Appointment>, q: SlotQuery, nowMs: int, day: int)
    requires Given(q.date) && DayOfSplitDate(q.date.value) == Some(day)
    requires Weekday(day) in EffectiveSettings(stored).closedDays
    ensures Terminates(stored, q)
    ensures AvailableSlots(stored, apts, q, nowMs) == SlotList([], Some(ClosedMessage))
  {
  }

  /** Without stored settings every Sunday is closed. */
  lemma SundayClosedByDefault(apts: seq<Appointment>, q: SlotQuery, nowMs: int, day: int)
    requires Given(q.date) && DayOfSplitDate(q.date.value) == Some(day)
    requires Weekday(day) == 0
    ensures Terminates(None, q)
    ensures AvailableSlots(None, apts, q, nowMs) == SlotList([], Some(ClosedMessage))
  {
    assert EffectiveSettings(None).closedDays == [0];
  }

  /** A date with a field `NumberOf` refuses makes the appointment query fail. */
  lemma InvalidDateFails(stored: Option<ShopSettings>, apts: seq<Appointment>, q: SlotQuery, nowMs: int)
    requires Given(q.date) && DayOfSplitDate(q.date.value).None?
    ensures Terminates(stored, q)
    ensures AvailableSlots(stored, apts, q, nowMs) == SlotError(500, "Failed to fetch available slots")
  {
  }

  /** Past the checks before the loop, the route answers with the grid's slots. */
  lemma RouteWalks(stored: Option<ShopSettings>, apts: seq<Appointment>, q: SlotQuery, nowMs: int,
                   day: int, open: int, close: int)
    requires Given(q.date) && DayOfSplitDate(q.date.value) == Some(day)
    requires var s := EffectiveSettings(stored);
      Weekday(day) !in s.closedDays && ParseHHMM(s.openTime) == Some(open) && ParseHHMM(s.closeTime) == Some(close)
    ensures Terminates(stored, q) <==> Ends(open, close, EffectiveSettings(stored).slotDuration, ServiceDuration(q))
    ensures Terminates(stored, q) ==>
      AvailableSlots(stored, apts, q, nowMs)
      == SlotList(Grid(open, close, EffectiveSettings(stored).slotDuration, ServiceDuration(q),
                       apts, day, q.barberId, nowMs), None)
  {
  }

  /**
   * What a slot starting at `m` means: its fmt is "h:mm a" of `m`, and it is available
   * exactly when it is not past and no active appointment of that day (and barber, if one
   * is asked for) overlaps it.
   */
  predicate Means(slot: TimeSlot, m: int, duration: Option<int>, apts: seq<Appointment>, day: int,
                  barberId: Option<string>, nowMs: int)
    requires IsTimeOfDay(m)
  {
    slot.time == Format12(m)
    && (slot.available <==>
          !IsPast(m, nowMs)
          && !(duration.Some? && exists j :: 0 <= j < |apts| && Blocks(apts[j], day, barberId)
                                            && HalfOpen(Span(m, m + duration.value), apts[j].Span())))
  }

  /** The k-th slot of the grid. */
  lemma GridSlot(open: int, close: int, step: int, duration: Option<int>, apts: seq<Appointment>,
                 day: int, barberId: Option<string>, nowMs: int, k: nat)
    requires IsTimeOfDay(open) && IsTimeOfDay(close) && Ends(open, close, step, duration)
    requires k < |Starts(open, close, step, duration)|
    ensures open <= open + k * step < close
    ensures duration.Some? ==> open + k * step + duration.value <= close
    ensures Means(Grid(open, close, step, duration, apts, day, barberId, nowMs)[k], open + k * step,
                  duration, apts, day, barberId, nowMs)
  {
    var spans := BlockingSpans(apts, day, barberId);
    StartsShape(open, close, step, duration);
    var starts := Starts(open, close, step, duration);
    var m := open + k * step;
    assert starts[k] == m && Fits(m, duration, close) && starts[k] in starts;
    SlotsAt(open, close, step, duration, spans, nowMs, Format12);
    SlotAtMeans(m, duration, apts, day, barberId, nowMs);
  }

  /** The slot the loop pushes at `m` means what `Means` says. */
  lemma SlotAtMeans(m: int, duration: Option<int>, apts: seq<Appointment>, day: int, barberId: Option<string>, nowMs: int)
    requires IsTimeOfDay(m)
    ensures Means(SlotAt(m, duration, BlockingSpans(apts, day, barberId), nowMs, Format12), m, duration, apts, day, barberId, nowMs)
  {
    if duration.Some? {
      BlockingSpansOverlap(Span(m, m + duration.value), apts, day, barberId);
    }
  }

  /**
   * The slots of the grid: the k-th one starts at `open + k * step`, ends by closing time
   * and means what `Means` says; the list stops at the first start that does not fit.
   */
  lemma GridMeaning(open: int, close: int, step: int, duration: Option<int>, apts: seq<Appointment>,
                    day: int, barberId: Option<string>, nowMs: int)
    requires IsTimeOfDay(open) && IsTimeOfDay(close) && Ends(open, close, step, duration)
    ensures !Fits(open + |Grid(open, close, step, duration, apts, day, barberId, nowMs)| * step, duration, close)
    ensures forall k :: 0 <= k < |Grid(open, close, step, duration, apts, day, barberId, nowMs)| ==>
      open <= open + k * step < close
      && (duration.Some? ==> open + k * step + duration.value <= close)
      && Means(Grid(open, close, step, duration, apts, day, barberId, nowMs)[k], open + k * step,
               duration, apts, day, barberId, nowMs)
  {
    StartsShape(open, close, step, duration);
    var slots := Grid(open, close, step, duration, apts, day, barberId, nowMs);
    forall k | 0 <= k < |slots|
      ensures open <= open + k * step < close
        && (duration.Some? ==> open + k * step + duration.value <= close)
        && Means(slots[k], open + k * step, duration, apts, day, barberId, nowMs)
    {
      GridSlot(open, close, step, duration, apts, day, barberId, nowMs, k);
    }
  }

  /** Every slot time on the grid is read back by the booking route as the same start. */
  lemma GridTimesParseBack(open: int, close: int, step: int, duration: Option<int>, apts: seq<Appointment>,
                           day: int, barberId: Option<string>, nowMs: int, k: nat)
    requires IsTimeOfDay(open) && IsTimeOfDay(close) && Ends(open, close, step, duration)
    requires k < |Starts(open, close, step, duration)|
    ensures Parse12(Grid(open, close, step, duration, apts, day, barberId, nowMs)[k].time) == Some(open + k * step)
  {
    GridSlot(open, close, step, duration, apts, day, barberId, nowMs, k);
    ReadBack(Grid(open, close, step, duration, apts, day, barberId, nowMs)[k].time, open + k * step);
  }

  lemma ReadBack(time: string, m: int)
    requires IsTimeOfDay(m) && time == Format12(m)
    ensures Parse12(time) == Some(m)
  {
    ParseFormat12(m);
  }

  /** With no appointments and a day that is not today, every slot of the grid is free. */
  lemma FreeGrid(open: int, close: int, step: int, duration: Option<int>, day: int, barberId: Option<string>,
                 nowMs: int, k: nat)
    requires IsTimeOfDay(open) && IsTimeOfDay(close) && Ends(open, close, step, duration)
    requires k < |Starts(open, close, step, duration)| && !IsToday(nowMs)
    ensures Grid(open, close, step, duration, [], day, barberId, nowMs)[k] == TimeSlot(Format12(open + k * step), true)
  {
    GridSlot(open, close, step, duration, [], day, barberId, nowMs, k);
  }

  /** With no stored settings, a Monday offers 22 half-hour slots, 9:00 AM to 7:30 PM. */
  lemma DefaultMonday(q: SlotQuery, apts: seq<Appointment>, nowMs: int, day: int)
    requires Given(q.date) && DayOfSplitDate(q.date.value) == Some(day) && Weekday(day) == 1
    requires ServiceDuration(q) == Some(30)
    ensures Terminates(None, q)
    ensures var r := AvailableSlots(None, apts, q, nowMs);
      r == SlotList(Grid(540, 1200, 30, Some(30), apts, day, q.barberId, nowMs), None) && |r.slots| == 22
  {
    DefaultHoursParse();
    RouteWalks(None, apts, q, nowMs, day, 540, 1200);
    DefaultDay();
  }

  lemma DefaultHoursParse()
    ensures ParseHHMM(DefaultSettings.openTime) == Some(540)
    ensures ParseHHMM(DefaultSettings.closeTime) == Some(1200)
  {
    assert FormatHHMM(540) == "09:00";
    assert FormatHHMM(1200) == "20:00";
    ParseFormatHHMM(540);
    ParseFormatHHMM(1200);
  }
}
