/**
 * `GET /api/availability?date=YYYY-MM-DD&barberId=&serviceId=`: the slot list the
 * booking page shows. It differs from the available-slots route in four ways: the shop
 * settings fall back field by field, the slot length is the chosen service's duration,
 * a barber's work schedule can close the day or narrow its hours, and a slot is past
 * whenever it lies before the current instant, on any day.
 */
module AvailabilityRoute {
  import opened Wrappers
  import opened Calendar
  import opened TimeFormat
  import opened Overlap
  import opened Domain
  import opened Store
  import opened SlotGrid
  import Legacy = AvailableSlotsRoute

  const ClosedMessage: string := "Shop is closed on this day"
  const OffDayMessage: string := "Barber is not available on this day"

  datatype AvailabilityQuery = AvailabilityQuery(date: Option<string>, barberId: Option<string>, serviceId: Option<string>)

  /** `shopSettings?.openTime || "09:00"`. */
  function OpenTime(stored: Option<ShopSettings>): string {
    if stored.Some? && stored.value.openTime != "" then stored.value.openTime else "09:00"
  }

  /** `shopSettings?.closeTime || "20:00"`. */
  function CloseTime(stored: Option<ShopSettings>): string {
    if stored.Some? && stored.value.closeTime != "" then stored.value.closeTime else "20:00"
  }

  /** `shopSettings?.slotDuration || 30`: a stored 0 also means 30. */
  function SlotStep(stored: Option<ShopSettings>): int {
    if stored.Some? && stored.value.slotDuration != 0 then stored.value.slotDuration else 30
  }

  /** `shopSettings?.closedDays || [0]`: a stored list, even an empty one, is kept. */
  function ClosedDays(stored: Option<ShopSettings>): seq<int> {
    if stored.Some? then stored.value.closedDays else [0]
  }

  /** The chosen service's duration when the service exists, else the slot step. */
  function ServiceLength(stored: Option<ShopSettings>, services: seq<Service>, q: AvailabilityQuery): int {
    if Given(q.serviceId) && FindService(services, q.serviceId.value).Some?
    then FindService(services, q.serviceId.value).value.duration
    else SlotStep(stored)
  }

  /** The requested barber's schedule row for the weekday; none without a barber. */
  function ScheduleOf(schedules: seq<WorkSchedule>, q: AvailabilityQuery, day: int): Option<WorkSchedule> {
    if Given(q.barberId) then FindSchedule(schedules, q.barberId.value, Weekday(day)) else None
  }

  /** `barberSchedule?.startTime || openTime`. */
  function WindowStart(stored: Option<ShopSettings>, schedule: Option<WorkSchedule>): string {
    if schedule.Some? && schedule.value.startTime != "" then schedule.value.startTime else OpenTime(stored)
  }

  /** `barberSchedule?.endTime || closeTime`. */
  function WindowEnd(stored: Option<ShopSettings>, schedule: Option<WorkSchedule>): string {
    if schedule.Some? && schedule.value.endTime != "" then schedule.value.endTime else CloseTime(stored)
  }

  /** Every slot before the current instant is past, whatever the day. */
  predicate IsPast(m: int, nowMs: int) { m * 60_000 < nowMs }

  /** The three-clause overlap with a blocking span. */
  predicate IsBooked(m: int, duration: int, spans: seq<Span>) {
    AnyThreeClause(Span(m, m + duration), spans)
  }

  /** The entry pushed for the slot starting at `m`, labelled by `fmt`. */
  function SlotAt(m: int, duration: int, spans: seq<Span>, nowMs: int, fmt: int -> string): TimeSlot {
    TimeSlot(fmt(m), !IsBooked(m, duration, spans) && !IsPast(m, nowMs))
  }

  /** The slots the loop pushes from `cur` on, in order. */
  function Slots(cur: int, close: int, step: int, duration: int, spans: seq<Span>, nowMs: int,
                 fmt: int -> string): (slots: seq<TimeSlot>)
    requires Ends(cur, close, step, Some(duration))
    ensures |slots| == |Starts(cur, close, step, Some(duration))|
    decreases close - cur
  {
    if Fits(cur, Some(duration), close)
    then [SlotAt(cur, duration, spans, nowMs, fmt)] + Slots(cur + step, close, step, duration, spans, nowMs, fmt)
    else []
  }

  /** The k-th slot is the slot of the k-th start of the grid. */
  lemma {:induction false} SlotsAt(cur: int, close: int, step: int, duration: int, spans: seq<Span>, nowMs: int,
                                   fmt: int -> string)
    requires Ends(cur, close, step, Some(duration))
    ensures forall k :: 0 <= k < |Slots(cur, close, step, duration, spans, nowMs, fmt)| ==>
      Slots(cur, close, step, duration, spans, nowMs, fmt)[k]
      == SlotAt(Starts(cur, close, step, Some(duration))[k], duration, spans, nowMs, fmt)
    decreases close - cur
  {
    if Fits(cur, Some(duration), close) {
      SlotsAt(cur + step, close, step, duration, spans, nowMs, fmt);
      var slots, starts := Slots(cur, close, step, duration, spans, nowMs, fmt), Starts(cur, close, step, Some(duration));
      var rest, restStarts := Slots(cur + step, close, step, duration, spans, nowMs, fmt), Starts(cur + step, close, step, Some(duration));
      assert slots == [SlotAt(cur, duration, spans, nowMs, fmt)] + rest;
      assert starts == [cur] + restStarts;
      forall k | 0 <= k < |slots|
        ensures slots[k] == SlotAt(starts[k], duration, spans, nowMs, fmt)
      {
        if k == 0 {
          assert slots[0] == SlotAt(cur, duration, spans, nowMs, fmt) && starts[0] == cur;
        } else {
          var j := k - 1;
          assert 0 <= j < |rest| && slots[k] == rest[j] && starts[k] == restStarts[j];
        }
      }
    }
  }

  /** The loop of the route only runs forever when a slot fits and the step is not positive. */
  predicate Terminates(stored: Option<ShopSettings>, services: seq<Service>, schedules: seq<WorkSchedule>,
                       q: AvailabilityQuery) {
    var day := if Given(q.date) then DayOfIsoDate(q.date.value) else None;
    (day.Some? && Weekday(day.value) !in ClosedDays(stored)
     && !(ScheduleOf(schedules, q, day.value).Some? && !ScheduleOf(schedules, q, day.value).value.isWorking)
     && ParseHHMM(WindowStart(stored, ScheduleOf(schedules, q, day.value))).Some?
     && ParseHHMM(WindowEnd(stored, ScheduleOf(schedules, q, day.value))).Some?)
    ==> Ends(ParseHHMM(WindowStart(stored, ScheduleOf(schedules, q, day.value))).value,
             ParseHHMM(WindowEnd(stored, ScheduleOf(schedules, q, day.value))).value,
             SlotStep(stored), Some(ServiceLength(stored, services, q)))
  }

  /** The response of the route, as a function of the stored data, the query and the clock. */
  function Availability(stored: Option<ShopSettings>, services: seq<Service>, schedules: seq<WorkSchedule>,
                        apts: seq<Appointment>, q: AvailabilityQuery, nowMs: int): SlotsResponse
    requires Terminates(stored, services, schedules, q)
  {
    if !Given(q.date) then SlotError(400, "Date parameter is required")
    else
      var day := DayOfIsoDate(q.date.value);
      if day.Some? && Weekday(day.value) in ClosedDays(stored) then SlotList([], Some(ClosedMessage))
      else if day.None? then SlotError(500, "Failed to fetch availability")
      else
        var schedule := ScheduleOf(schedules, q, day.value);
        if schedule.Some? && !schedule.value.isWorking then SlotList([], Some(OffDayMessage))
        else
          match (ParseHHMM(WindowStart(stored, schedule)), ParseHHMM(WindowEnd(stored, schedule)))
          case (Some(open), Some(close)) =>
            SlotList(Grid(open, close, SlotStep(stored), ServiceLength(stored, services, q),
                          apts, day.value, q.barberId, nowMs), None)
          case _ => SlotList([], None)
  }

  /** The day's slot list: the grid walked with the blocking appointments' spans, labelled "h:mm a". */
  function Grid(open: int, close: int, step: int, duration: int, apts: seq<Appointment>, day: int,
                barberId: Option<string>, nowMs: int): (slots: seq<TimeSlot>)
    requires Ends(open, close, step, Some(duration))
    ensures |slots| == |Starts(open, close, step, Some(duration))|
  {
    Slots(open, close, step, duration, BlockingSpans(apts, day, barberId), nowMs, Format12)
  }

  /** The body of one loop iteration: the end, the conflict test, the past test and the entry pushed. */
  method MakeSlot(cur: int, duration: int, spans: seq<Span>, nowMs: int, fmt: int -> string)
    returns (slot: TimeSlot)
    ensures slot == SlotAt(cur, duration, spans, nowMs, fmt)
  {
    var slotEnd := cur + duration;
    var isBooked := AnyThreeClause(Span(cur, slotEnd), spans);
    var isPast := cur * 60_000 < nowMs;
    slot := TimeSlot(fmt(cur), !isBooked && !isPast);
  }

  /** One iteration of the loop: the slot at `cur` joins the list and the rest starts one step on. */
  lemma SlotsStep(slots: seq<TimeSlot>, cur: int, close: int, step: int, duration: int, spans: seq<Span>,
                  nowMs: int, fmt: int -> string)
    requires Ends(cur, close, step, Some(duration)) && Fits(cur, Some(duration), close)
    ensures Ends(cur + step, close, step, Some(duration))
    ensures slots + Slots(cur, close, step, duration, spans, nowMs, fmt)
      == (slots + [SlotAt(cur, duration, spans, nowMs, fmt)]) + Slots(cur + step, close, step, duration, spans, nowMs, fmt)
  {
    var slot, rest := SlotAt(cur, duration, spans, nowMs, fmt), Slots(cur + step, close, step, duration, spans, nowMs, fmt);
    assert Slots(cur, close, step, duration, spans, nowMs, fmt) == [slot] + rest;
    assert slots + ([slot] + rest) == (slots + [slot]) + rest;
  }

  /** The slot loop of the route, labelling each slot with `fmt` (the route passes `Format12`). */
  method GenerateSlots(open: int, close: int, step: int, duration: int, spans: seq<Span>, nowMs: int,
                       fmt: int -> string)
    returns (slots: seq<TimeSlot>)
    requires Ends(open, close, step, Some(duration))
    ensures slots == Slots(open, close, step, duration, spans, nowMs, fmt)
  {
    slots := [];
    var cur := open;
    while cur < close
      invariant Ends(cur, close, step, Some(duration))
      invariant Slots(open, close, step, duration, spans, nowMs, fmt) == slots + Slots(cur, close, step, duration, spans, nowMs, fmt)
      decreases close - cur
    {
      if cur + duration > close {
        break;
      }
      var slot := MakeSlot(cur, duration, spans, nowMs, fmt);
      SlotsStep(slots, cur, close, step, duration, spans, nowMs, fmt);
      slots := slots + [slot];
      cur := cur + step;
    }
    assert slots + [] == slots;
  }

  /** The route. */
  method GetAvailability(db: Database, q: AvailabilityQuery, nowMs: int) returns (r: SlotsResponse)
    requires Terminates(db.settings, db.services, db.schedules, q)
    ensures r == Availability(db.settings, db.services, db.schedules, db.appointments, q, nowMs)
  {
    if !Given(q.date) {
      return SlotError(400, "Date parameter is required");
    }
    var date := DayOfIsoDate(q.date.value);
    var slotDuration := SlotStep(db.settings);
    var closedDays := ClosedDays(db.settings);
    if date.Some? && Weekday(date.value) in closedDays {
      return SlotList([], Some(ClosedMessage));
    }
    var serviceDuration := slotDuration;
    if Given(q.serviceId) {
      var service := FindService(db.services, q.serviceId.value);
      if service.Some? {
        serviceDuration := service.value.duration;
      }
    }
    // An Invalid Date makes the schedule query (weekday NaN) or the appointment query throw.
    if date.None? {
      return SlotError(500, "Failed to fetch availability");
    }
    var dayOfWeek := Weekday(date.value);
    var barberSchedule: Option<WorkSchedule> := None;
    if Given(q.barberId) {
      barberSchedule := FindSchedule(db.schedules, q.barberId.value, dayOfWeek);
      if barberSchedule.Some? && !barberSchedule.value.isWorking {
        return SlotList([], Some(OffDayMessage));
      }
    }
    var currentTime := ParseHHMM(WindowStart(db.settings, barberSchedule));
    var endTimeLimit := ParseHHMM(WindowEnd(db.settings, barberSchedule));
    var existing := BlockingSpans(db.appointments, date.value, q.barberId);
    if currentTime.None? || endTimeLimit.None? {
      return SlotList([], None);
    }
    var slots := GenerateSlots(currentTime.value, endTimeLimit.value, slotDuration, serviceDuration, existing, nowMs, Format12);
    return SlotList(slots, None);
  }

  // Properties of the route

  /** A day the barber's schedule marks as not working has no slots, only a notice. */
  lemma OffDayIsEmpty(stored: Option<ShopSettings>, services: seq<Service>, schedules: seq<WorkSchedule>,
                      apts: seq<Appointment>, q: AvailabilityQuery, nowMs: int, day: int, ws: WorkSchedule)
    requires Given(q.date) && DayOfIsoDate(q.date.value) == Some(day) && Weekday(day) !in ClosedDays(stored)
    requires Given(q.barberId) && ws in schedules && ws.barberId == q.barberId.value && ws.dayOfWeek == Weekday(day)
    requires !ws.isWorking
    requires forall i, j :: 0 <= i < j < |schedules| ==>
      !(schedules[i].barberId == schedules[j].barberId && schedules[i].dayOfWeek == schedules[j].dayOfWeek)
    ensures Terminates(stored, services, schedules, q)
    ensures Availability(stored, services, schedules, apts, q, nowMs) == SlotList([], Some(OffDayMessage))
  {
    var found := FindSchedule(schedules, q.barberId.value, Weekday(day));
    var i :| 0 <= i < |schedules| && schedules[i] == ws;
    var j :| 0 <= j < |schedules| && schedules[j] == found.value;
    assert i == j;
  }

  /** A stored, empty closed-days list keeps the shop open every day; without settings Sunday is closed. */
  lemma ClosedDaysFallback(stored: Option<ShopSettings>, day: int)
    ensures stored.Some? && stored.value.closedDays == [] ==> Weekday(day) !in ClosedDays(stored)
    ensures stored.None? ==> (Weekday(day) in ClosedDays(stored) <==> Weekday(day) == 0)
  {
  }

  /** A date the ISO reading refuses makes the route fail. */
  lemma InvalidDateFails(stored: Option<ShopSettings>, services: seq<Service>, schedules: seq<WorkSchedule>,
                         apts: seq<Appointment>, q: AvailabilityQuery, nowMs: int)
    requires Given(q.date) && DayOfIsoDate(q.date.value).None?
    ensures Terminates(stored, services, schedules, q)
    ensures Availability(stored, services, schedules, apts, q, nowMs) == SlotError(500, "Failed to fetch availability")
  {
  }

  /** Without a date the route answers 400. */
  lemma MissingDateIsRejected(stored: Option<ShopSettings>, services: seq<Service>, schedules: seq<WorkSchedule>,
                              apts: seq<Appointment>, q: AvailabilityQuery, nowMs: int)
    requires !Given(q.date)
    ensures Terminates(stored, services, schedules, q)
    ensures Availability(stored, services, schedules, apts, q, nowMs) == SlotError(400, "Date parameter is required")
  {
  }

  /** A closed weekday gives an empty list with the closed notice, whatever the barber's schedule. */
  lemma ClosedDayIsEmpty(stored: Option<ShopSettings>, services: seq<Service>, schedules: seq<WorkSchedule>,
                         apts: seq<Appointment>, q: AvailabilityQuery, nowMs: int, day: int)
    requires Given(q.date) && DayOfIsoDate(q.date.value) == Some(day)
    requires Weekday(day) in ClosedDays(stored)
    ensures Terminates(stored, services, schedules, q)
    ensures Availability(stored, services, schedules, apts, q, nowMs) == SlotList([], Some(ClosedMessage))
  {
  }

  /** A requested service that exists sets the slot length to its own duration. */
  lemma DurationIsTheServices(stored: Option<ShopSettings>, services: seq<Service>, q: AvailabilityQuery, svc: Service)
    requires Given(q.serviceId) && svc in services && svc.id == q.serviceId.value
    requires forall i, j :: 0 <= i < j < |services| ==> services[i].id != services[j].id
    ensures ServiceLength(stored, services, q) == svc.duration
  {
    var found := FindService(services, q.serviceId.value);
    var i :| 0 <= i < |services| && services[i] == svc;
    var j :| 0 <= j < |services| && services[j] == found.value;
    assert i == j;
  }

  /** Without a service, or with an unknown one, the slot length is the stored step, else 30. */
  lemma DurationFallsBackToStep(stored: Option<ShopSettings>, services: seq<Service>, q: AvailabilityQuery)
    requires !Given(q.serviceId) || forall k :: 0 <= k < |services| ==> services[k].id != q.serviceId.value
    ensures ServiceLength(stored, services, q)
      == if stored.Some? && stored.value.slotDuration != 0 then stored.value.slotDuration else 30
  {
  }

  /** The barber's row for the weekday sets the window; an empty time falls back to the shop's. */
  lemma WindowIsTheSchedules(stored: Option<ShopSettings>, schedules: seq<WorkSchedule>, q: AvailabilityQuery,
                             day: int, ws: WorkSchedule)
    requires Given(q.barberId) && ws in schedules && ws.barberId == q.barberId.value && ws.dayOfWeek == Weekday(day)
    requires forall i, j :: 0 <= i < j < |schedules| ==>
      !(schedules[i].barberId == schedules[j].barberId && schedules[i].dayOfWeek == schedules[j].dayOfWeek)
    ensures WindowStart(stored, ScheduleOf(schedules, q, day)) == if ws.startTime != "" then ws.startTime else OpenTime(stored)
    ensures WindowEnd(stored, ScheduleOf(schedules, q, day)) == if ws.endTime != "" then ws.endTime else CloseTime(stored)
  {
    var found := FindSchedule(schedules, q.barberId.value, Weekday(day));
    var i :| 0 <= i < |schedules| && schedules[i] == ws;
    var j :| 0 <= j < |schedules| && schedules[j] == found.value;
    assert i == j;
  }

  /** Without a barber, or without a row for the weekday, the window is the shop's, else 09:00 to 20:00. */
  lemma WindowFallsBackToShop(stored: Option<ShopSettings>, schedules: seq<WorkSchedule>, q: AvailabilityQuery, day: int)
    requires !Given(q.barberId) || forall k :: 0 <= k < |schedules| ==>
      !(schedules[k].barberId == q.barberId.value && schedules[k].dayOfWeek == Weekday(day))
    ensures WindowStart(stored, ScheduleOf(schedules, q, day))
      == if stored.Some? && stored.value.openTime != "" then stored.value.openTime else "09:00"
    ensures WindowEnd(stored, ScheduleOf(schedules, q, day))
      == if stored.Some? && stored.value.closeTime != "" then stored.value.closeTime else "20:00"
  {
  }

  /**
   * On an open, working day whose window reads as `open` to `close`, the route ends exactly
   * when the grid walk does, and then answers the grid of that window with the slot step and
   * the service length.
   */
  lemma RouteWalks(stored: Option<ShopSettings>, services: seq<Service>, schedules: seq<WorkSchedule>,
                   apts: seq<Appointment>, q: AvailabilityQuery, nowMs: int, day: int, open: int, close: int)
    requires Given(q.date) && DayOfIsoDate(q.date.value) == Some(day) && Weekday(day) !in ClosedDays(stored)
    requires var ws := ScheduleOf(schedules, q, day);
      !(ws.Some? && !ws.value.isWorking)
      && ParseHHMM(WindowStart(stored, ws)) == Some(open) && ParseHHMM(WindowEnd(stored, ws)) == Some(close)
    ensures Terminates(stored, services, schedules, q)
      <==> Ends(open, close, SlotStep(stored), Some(ServiceLength(stored, services, q)))
    ensures Terminates(stored, services, schedules, q) ==>
      Availability(stored, services, schedules, apts, q, nowMs)
      == SlotList(Grid(open, close, SlotStep(stored), ServiceLength(stored, services, q),
                       apts, day, q.barberId, nowMs), None)
  {
  }

  /**
   * What a slot starting at `m` means on this route: its label is "h:mm a" of `m`, and it is
   * available exactly when it starts at or after the current instant and no active appointment
   * of that day (and barber, if one is asked for) meets it under the three-clause test.
   */
  predicate Means(slot: TimeSlot, m: int, duration: int, apts: seq<Appointment>, day: int,
                  barberId: Option<string>, nowMs: int)
  {
    slot.time == Format12(m)
    && (slot.available <==>
          nowMs <= m * 60_000
          && !(exists j :: 0 <= j < |apts| && Blocks(apts[j], day, barberId)
                          && ThreeClause(Span(m, m + duration), apts[j].Span())))
  }

  /** `some` over the blocking spans is an existential over the blocking appointments. */
  lemma {:induction false} BlockingThreeClause(slot: Span, apts: seq<Appointment>, day: int, barberId: Option<string>)
    ensures AnyThreeClause(slot, BlockingSpans(apts, day, barberId))
        <==> exists k :: 0 <= k < |apts| && Blocks(apts[k], day, barberId) && ThreeClause(slot, apts[k].Span())
  {
    if |apts| > 0 {
      BlockingThreeClause(slot, apts[1..], day, barberId);
      var rest := BlockingSpans(apts[1..], day, barberId);
      if Blocks(apts[0], day, barberId) {
        assert ([apts[0].Span()] + rest)[1..] == rest;
      }
      if exists k :: 0 <= k < |apts| && Blocks(apts[k], day, barberId) && ThreeClause(slot, apts[k].Span()) {
        var k :| 0 <= k < |apts| && Blocks(apts[k], day, barberId) && ThreeClause(slot, apts[k].Span());
        if k > 0 {
          assert apts[1..][k - 1] == apts[k];
        }
      }
      if exists k :: 0 <= k < |apts[1..]| && Blocks(apts[1..][k], day, barberId) && ThreeClause(slot, apts[1..][k].Span()) {
        var k :| 0 <= k < |apts[1..]| && Blocks(apts[1..][k], day, barberId) && ThreeClause(slot, apts[1..][k].Span());
        assert apts[k + 1] == apts[1..][k];
      }
    }
  }

  /** The slot the loop pushes at `m` means what `Means` says. */
  lemma SlotAtMeans(m: int, duration: int, apts: seq<Appointment>, day: int, barberId: Option<string>, nowMs: int)
    ensures Means(SlotAt(m, duration, BlockingSpans(apts, day, barberId), nowMs, Format12), m, duration, apts, day, barberId, nowMs)
  {
    BlockingThreeClause(Span(m, m + duration), apts, day, barberId);
  }

  /** The k-th slot of the grid starts at `open + k * step`, ends by closing time and means what `Means` says. */
  lemma GridSlot(open: int, close: int, step: int, duration: int, apts: seq<Appointment>,
                 day: int, barberId: Option<string>, nowMs: int, k: nat)
    requires Ends(open, close, step, Some(duration))
    requires k < |Starts(open, close, step, Some(duration))|
    ensures open <= open + k * step < close && open + k * step + duration <= close
    ensures Means(Grid(open, close, step, duration, apts, day, barberId, nowMs)[k], open + k * step,
                  duration, apts, day, barberId, nowMs)
  {
    var spans := BlockingSpans(apts, day, barberId);
    StartsShape(open, close, step, Some(duration));
    var starts := Starts(open, close, step, Some(duration));
    var m := open + k * step;
    assert starts[k] == m && Fits(m, Some(duration), close) && starts[k] in starts;
    SlotsAt(open, close, step, duration, spans, nowMs, Format12);
    SlotAtMeans(m, duration, apts, day, barberId, nowMs);
  }

  /** On a day that is over, every slot of this route is taken. */
  lemma PastDayAllTaken(open: int, close: int, step: int, duration: int, apts: seq<Appointment>,
                        day: int, barberId: Option<string>, nowMs: int, k: nat)
    requires IsTimeOfDay(close) && Ends(open, close, step, Some(duration))
    requires nowMs >= MinutesPerDay * 60_000
    requires k < |Starts(open, close, step, Some(duration))|
    ensures !Grid(open, close, step, duration, apts, day, barberId, nowMs)[k].available
  {
    GridSlot(open, close, step, duration, apts, day, barberId, nowMs, k);
  }

  /**
   * Both slot routes give the same list on the current day and on days still to come, for a
   * positive service length and appointments of positive length; on a day that is over they
   * part, since only this route marks its slots past.
   */
  lemma {:induction false} RoutesAgree(cur: int, close: int, step: int, duration: int, spans: seq<Span>,
                                       nowMs: int, fmt: int -> string)
    requires 0 <= cur && Ends(cur, close, step, Some(duration)) && duration > 0
    requires forall i :: 0 <= i < |spans| ==> Positive(spans[i])
    requires nowMs < MinutesPerDay * 60_000
    ensures Slots(cur, close, step, duration, spans, nowMs, fmt)
         == Legacy.Slots(cur, close, step, Some(duration), spans, nowMs, fmt)
    decreases close - cur
  {
    if Fits(cur, Some(duration), close) {
      RoutesAgree(cur + step, close, step, duration, spans, nowMs, fmt);
      AnyThreeClauseIsAnyHalfOpen(Span(cur, cur + duration), spans);
    }
  }

  /** The grid spans of the appointment table are positive when its appointments are. */
  lemma {:induction false} BlockingSpansPositive(apts: seq<Appointment>, day: int, barberId: Option<string>)
    requires forall i :: 0 <= i < |apts| ==> apts[i].start < apts[i].end
    ensures forall i :: 0 <= i < |BlockingSpans(apts, day, barberId)| ==> Positive(BlockingSpans(apts, day, barberId)[i])
  {
    BlockingSpansFrom(apts, day, barberId);
    var spans := BlockingSpans(apts, day, barberId);
    forall i | 0 <= i < |spans|
      ensures Positive(spans[i])
    {
      assert spans[i] in spans;
    }
  }
}
