/**
 * The appointments API. `POST` books a time for a customer after a write-time collision
 * check against the barber's active appointments that day; `GET` lists appointments,
 * filtered by status, by a day or a range of days and by barber, in start-time order.
 */
module BookingsRoute {
  import opened Wrappers
  import opened Calendar
  import opened TimeFormat
  import opened Overlap
  import opened Domain
  import opened Store
  import opened Sorting

  const MissingFields := "Missing required fields"
  const ServiceMissing := "Service not found"
  const NoBarbers := "No barbers available"
  const SlotTaken := "This time slot is no longer available"
  const CreateFailed := "Failed to create appointment"
  const FetchFailed := "Failed to fetch appointments"

  /** The JSON body of a booking request; an absent or `null` field is `None`. */
  datatype BookingRequest = BookingRequest(
    serviceId: Option<string>,
    barberId: Option<string>,
    date: Option<string>,
    timeSlot: Option<string>,
    customerName: Option<string>,
    customerEmail: Option<string>,
    customerPhone: Option<string>,
    notes: Option<string>)

  /** `201` with the stored appointment, or an error status with its message. */
  datatype BookingResponse = Created(appointment: Appointment) | BookingError(status: int, error: string)

  /** Every field the route insists on is present and non-empty (`barberId` and `notes` are optional). */
  predicate HasRequiredFields(req: BookingRequest) {
    Given(req.serviceId) && Given(req.date) && Given(req.timeSlot)
    && Given(req.customerName) && Given(req.customerEmail) && Given(req.customerPhone)
  }

  /** The barber the booking goes to: the requested one, else the first active barber. */
  function SelectedBarber(barbers: seq<Barber>, req: BookingRequest): (r: Option<string>)
    ensures Given(req.barberId) ==> r == Some(req.barberId.value)
    ensures !Given(req.barberId) ==> (r.Some? <==> exists k :: 0 <= k < |barbers| && barbers[k].isActive)
    ensures !Given(req.barberId) && r.Some? ==> exists k :: 0 <= k < |barbers| && barbers[k].isActive && barbers[k].id == r.value
  {
    if Given(req.barberId) then Some(req.barberId.value)
    else
      match FirstActiveBarber(barbers)
      case Some(b) => Some(b.id)
      case None => None
  }

  /**
   * The appointment the request describes, before the collision check, or the error that
   * stops the route first. An unparsable date or time gives an Invalid Date, which the
   * database query then rejects with the generic failure.
   */
  function Candidate(services: seq<Service>, barbers: seq<Barber>, req: BookingRequest, newId: string): BookingResponse {
    if !HasRequiredFields(req) then BookingError(400, MissingFields)
    else
      match FindService(services, req.serviceId.value)
      case None => BookingError(404, ServiceMissing)
      case Some(service) =>
        match SelectedBarber(barbers, req)
        case None => BookingError(400, NoBarbers)
        case Some(barberId) =>
          match (DayOfIsoDate(req.date.value), Parse12(req.timeSlot.value))
          case (Some(day), Some(start)) =>
            Created(Appointment(newId, req.customerName.value, req.customerEmail.value, req.customerPhone.value,
                                day, start, start + service.duration, Pending, req.notes, barberId, req.serviceId.value))
          case _ => BookingError(500, CreateFailed)
  }

  /** The write-time query's filter: same barber, same day, active, and `guard` on the times. */
  predicate Collides(a: Appointment, c: Appointment, guard: (Span, Span) -> bool) {
    a.barberId == c.barberId && a.day == c.day && IsActive(a.status) && guard(c.Span(), a.Span())
  }

  /** `appointment.findFirst` with that filter. */
  function FindCollision(apts: seq<Appointment>, c: Appointment, guard: (Span, Span) -> bool): (r: Option<Appointment>)
    ensures r.Some? ==> r.value in apts && Collides(r.value, c, guard)
    ensures r.None? ==> forall k :: 0 <= k < |apts| ==> !Collides(apts[k], c, guard)
  {
    if |apts| == 0 then None
    else if Collides(apts[0], c, guard) then Some(apts[0])
    else FindCollision(apts[1..], c, guard)
  }

  /**
   * The response of `POST`, for a write guard `guard`: the route as written uses
   * `WriteGuard`, the corrected route `WriteGuardFixed`. The insert fails on the foreign
   * key when the requested barber does not exist.
   */
  function Book(services: seq<Service>, barbers: seq<Barber>, apts: seq<Appointment>, req: BookingRequest,
                newId: string, guard: (Span, Span) -> bool): BookingResponse
  {
    match Candidate(services, barbers, req, newId)
    case BookingError(status, error) => BookingError(status, error)
    case Created(c) =>
      if FindCollision(apts, c, guard).Some? then BookingError(409, SlotTaken)
      else if !BarberExists(barbers, c.barberId) then BookingError(500, CreateFailed)
      else Created(c)
  }

  /**
   * `POST /api/bookings` with the write guard `guard`: `WriteGuard` is the route as written,
   * `WriteGuardFixed` the corrected one. A created appointment is appended to the table.
   */
  method CreateBooking(db: Database, req: BookingRequest, newId: string, guard: (Span, Span) -> bool)
    returns (r: BookingResponse)
    modifies db
    ensures r == Book(old(db.services), old(db.barbers), old(db.appointments), req, newId, guard)
    ensures db.appointments == if r.Created? then old(db.appointments) + [r.appointment] else old(db.appointments)
    ensures db.services == old(db.services) && db.barbers == old(db.barbers)
    ensures db.schedules == old(db.schedules) && db.settings == old(db.settings)
  {
    if !HasRequiredFields(req) {
      return BookingError(400, MissingFields);
    }
    var service := FindService(db.services, req.serviceId.value);
    if service.None? {
      return BookingError(404, ServiceMissing);
    }
    var selectedBarberId := req.barberId;
    if !Given(selectedBarberId) {
      var availableBarber := FirstActiveBarber(db.barbers);
      if availableBarber.Some? {
        selectedBarberId := Some(availableBarber.value.id);
      } else {
        return BookingError(400, NoBarbers);
      }
    }
    var appointmentDate := DayOfIsoDate(req.date.value);
    var startTime := Parse12(req.timeSlot.value);
    if appointmentDate.None? || startTime.None? {
      return BookingError(500, CreateFailed);
    }
    var endTime := startTime.value + service.value.duration;
    var appointment := Appointment(newId, req.customerName.value, req.customerEmail.value, req.customerPhone.value,
                                   appointmentDate.value, startTime.value, endTime, Pending, req.notes,
                                   selectedBarberId.value, req.serviceId.value);
    var existingAppointment := FindCollision(db.appointments, appointment, guard);
    if existingAppointment.Some? {
      return BookingError(409, SlotTaken);
    }
    if !BarberExists(db.barbers, selectedBarberId.value) {
      return BookingError(500, CreateFailed);
    }
    db.appointments := db.appointments + [appointment];
    r := Created(appointment);
  }

  /** A request missing a required field is rejected with 400, and only such a request gets that answer. */
  lemma MissingFieldsRejected(services: seq<Service>, barbers: seq<Barber>, apts: seq<Appointment>,
                              req: BookingRequest, newId: string, guard: (Span, Span) -> bool)
    ensures Book(services, barbers, apts, req, newId, guard) == BookingError(400, MissingFields)
        <==> !HasRequiredFields(req)
  {
    assert MissingFields != NoBarbers;
  }

  /** A complete request naming an unknown service is answered 404, and nothing else is. */
  lemma UnknownServiceRejected(services: seq<Service>, barbers: seq<Barber>, apts: seq<Appointment>,
                               req: BookingRequest, newId: string, guard: (Span, Span) -> bool)
    ensures Book(services, barbers, apts, req, newId, guard) == BookingError(404, ServiceMissing)
        <==> HasRequiredFields(req) && forall k :: 0 <= k < |services| ==> services[k].id != req.serviceId.value
  {
    if HasRequiredFields(req) && forall k :: 0 <= k < |services| ==> services[k].id != req.serviceId.value {
      assert FindService(services, req.serviceId.value).None?;
    }
  }

  /** Without a requested barber the booking needs an active one; with none, the answer is 400. */
  lemma NoActiveBarberRejected(services: seq<Service>, barbers: seq<Barber>, apts: seq<Appointment>,
                               req: BookingRequest, newId: string, guard: (Span, Span) -> bool)
    requires HasRequiredFields(req) && FindService(services, req.serviceId.value).Some?
    ensures Book(services, barbers, apts, req, newId, guard) == BookingError(400, NoBarbers)
        <==> !Given(req.barberId) && forall k :: 0 <= k < |barbers| ==> !barbers[k].isActive
  {
  }

  /**
   * What a created appointment holds: the customer's fields, the parsed day and start, an
   * end one service duration later, the pending status, and an existing barber — the
   * requested one, or an active one when none was requested.
   */
  lemma CreatedRecord(services: seq<Service>, barbers: seq<Barber>, apts: seq<Appointment>,
                      req: BookingRequest, newId: string, guard: (Span, Span) -> bool)
    requires Book(services, barbers, apts, req, newId, guard).Created?
    ensures var a := Book(services, barbers, apts, req, newId, guard).appointment;
      HasRequiredFields(req)
      && a.id == newId && a.status == Pending && a.notes == req.notes
      && a.customerName == req.customerName.value && a.customerEmail == req.customerEmail.value
      && a.customerPhone == req.customerPhone.value && a.serviceId == req.serviceId.value
      && Some(a.day) == DayOfIsoDate(req.date.value) && Some(a.start) == Parse12(req.timeSlot.value)
      && (exists k :: 0 <= k < |services| && services[k].id == a.serviceId && a.end == a.start + services[k].duration)
      && BarberExists(barbers, a.barberId)
      && (Given(req.barberId) ==> a.barberId == req.barberId.value)
      && (!Given(req.barberId) ==> exists k :: 0 <= k < |barbers| && barbers[k].isActive && barbers[k].id == a.barberId)
      && forall k :: 0 <= k < |apts| ==> !Collides(apts[k], a, guard)
  {
    var service := FindService(services, req.serviceId.value).value;
    var k :| 0 <= k < |services| && services[k] == service;
  }

  /** A slot time the slot routes emit is booked at exactly the minute it stands for. */
  lemma BookedAtListedTime(services: seq<Service>, barbers: seq<Barber>, apts: seq<Appointment>,
                           req: BookingRequest, newId: string, guard: (Span, Span) -> bool, m: int)
    requires IsTimeOfDay(m) && req.timeSlot == Some(Format12(m))
    requires Book(services, barbers, apts, req, newId, guard).Created?
    ensures Book(services, barbers, apts, req, newId, guard).appointment.start == m
  {
    ParseFormat12(m);
  }

  /** Two active appointments of one barber on one day whose times overlap. */
  predicate DoubleBooked(a: Appointment, b: Appointment) {
    a.barberId == b.barberId && a.day == b.day && IsActive(a.status) && IsActive(b.status)
    && HalfOpen(a.Span(), b.Span())
  }

  /** No barber has two overlapping active appointments. */
  predicate NoDoubleBooking(apts: seq<Appointment>) {
    forall i, j :: 0 <= i < j < |apts| ==> !DoubleBooked(apts[i], apts[j])
  }

  /** Every service lasts at least zero minutes, so a booking's end is not before its start. */
  predicate DurationsNonNegative(services: seq<Service>) {
    forall k :: 0 <= k < |services| ==> services[k].duration >= 0
  }

  /** The calendar stays free of double bookings across a booking with the corrected guard. */
  lemma CorrectedBookingKeepsCalendarFree(services: seq<Service>, barbers: seq<Barber>, apts: seq<Appointment>,
                                          req: BookingRequest, newId: string)
    requires DurationsNonNegative(services) && NoDoubleBooking(apts)
    requires Book(services, barbers, apts, req, newId, WriteGuardFixed).Created?
    ensures NoDoubleBooking(apts + [Book(services, barbers, apts, req, newId, WriteGuardFixed).appointment])
  {
    var c := Book(services, barbers, apts, req, newId, WriteGuardFixed).appointment;
    CreatedRecord(services, barbers, apts, req, newId, WriteGuardFixed);
    var s := apts + [c];
    forall i, j | 0 <= i < j < |s|
      ensures !DoubleBooked(s[i], s[j])
    {
      if j == |apts| {
        assert s[i] == apts[i] && s[j] == c;
        assert !Collides(apts[i], c, WriteGuardFixed);
        HalfOpenTripsFixedGuard(c.Span(), apts[i].Span());
        HalfOpenSymmetric(apts[i].Span(), c.Span());
      } else {
        assert s[i] == apts[i] && s[j] == apts[j];
      }
    }
  }

  /** The corrected route turns a request away with 409 whenever the new booking would overlap an active one. */
  lemma CorrectedGuardCatchesOverlap(services: seq<Service>, barbers: seq<Barber>, apts: seq<Appointment>,
                                     req: BookingRequest, newId: string, k: int)
    requires DurationsNonNegative(services)
    requires Candidate(services, barbers, req, newId).Created?
    requires 0 <= k < |apts|
    requires DoubleBooked(apts[k], Candidate(services, barbers, req, newId).appointment)
    ensures Book(services, barbers, apts, req, newId, WriteGuardFixed) == BookingError(409, SlotTaken)
  {
    var c := Candidate(services, barbers, req, newId).appointment;
    var service := FindService(services, req.serviceId.value).value;
    var j :| 0 <= j < |services| && services[j] == service;
    HalfOpenSymmetric(apts[k].Span(), c.Span());
    HalfOpenTripsFixedGuard(c.Span(), apts[k].Span());
    assert Collides(apts[k], c, WriteGuardFixed);
  }

  /**
   * Every 409 of either guard names a real collision when services and stored
   * appointments have positive length.
   */
  lemma ConflictIsReal(services: seq<Service>, barbers: seq<Barber>, apts: seq<Appointment>,
                       req: BookingRequest, newId: string, guard: (Span, Span) -> bool)
    requires forall k :: 0 <= k < |services| ==> services[k].duration > 0
    requires forall k :: 0 <= k < |apts| ==> Positive(apts[k].Span())
    requires guard == WriteGuard || guard == WriteGuardFixed
    requires Book(services, barbers, apts, req, newId, guard) == BookingError(409, SlotTaken)
    ensures Candidate(services, barbers, req, newId).Created?
    ensures exists k :: 0 <= k < |apts| && DoubleBooked(apts[k], Candidate(services, barbers, req, newId).appointment)
  {
    var c := Candidate(services, barbers, req, newId).appointment;
    var service := FindService(services, req.serviceId.value).value;
    var j :| 0 <= j < |services| && services[j] == service;
    var a := FindCollision(apts, c, guard).value;
    var k :| 0 <= k < |apts| && apts[k] == a;
    WriteGuardFixedIsHalfOpen(c.Span(), a.Span());
    HalfOpenSymmetric(a.Span(), c.Span());
    assert DoubleBooked(apts[k], c);
  }

  /**
   * The route as written lets a booking through around a shorter active appointment
   * inside it: with a 10:00-10:15 appointment stored (start 600, end 615), a 45-minute
   * booking at "9:45 AM" (minute 585) for the same barber and day is created, and the
   * calendar then holds a double booking; the corrected guard answers 409.
   */
  lemma AsWrittenDoubleBooks(services: seq<Service>, barbers: seq<Barber>, req: BookingRequest, newId: string,
                             existing: Appointment, m: int, duration: int)
    requires HasRequiredFields(req) && Given(req.barberId) && BarberExists(barbers, req.barberId.value)
    requires exists k :: 0 <= k < |services| && services[k].id == req.serviceId.value && services[k].duration == duration
    requires forall j, k :: 0 <= j < k < |services| ==> services[j].id != services[k].id
    requires IsTimeOfDay(m) && req.timeSlot == Some(Format12(m)) && DayOfIsoDate(req.date.value).Some?
    requires existing.barberId == req.barberId.value && existing.day == DayOfIsoDate(req.date.value).value
    requires m < existing.start < existing.end < m + duration && IsActive(existing.status)
    ensures Book(services, barbers, [existing], req, newId, WriteGuard).Created?
    ensures !NoDoubleBooking([existing, Book(services, barbers, [existing], req, newId, WriteGuard).appointment])
    ensures Book(services, barbers, [existing], req, newId, WriteGuardFixed) == BookingError(409, SlotTaken)
  {
    ParseFormat12(m);
    var service := FindService(services, req.serviceId.value).value;
    var k :| 0 <= k < |services| && services[k].id == req.serviceId.value && services[k].duration == duration;
    var i :| 0 <= i < |services| && services[i] == service;
    assert i == k;
    var c := Candidate(services, barbers, req, newId).appointment;
    assert c.start == m && c.end == m + duration;
    WriteGuardGap(c.Span(), existing.Span());
    assert !Collides(existing, c, WriteGuard);
    assert FindCollision([existing], c, WriteGuard).None?;
    assert Book(services, barbers, [existing], req, newId, WriteGuard) == Created(c);
    assert Collides(existing, c, WriteGuardFixed);
    var both := [existing, c];
    assert DoubleBooked(both[0], both[1]);
  }

  /** The instance above, at the level of the times: 09:45-10:30 against 10:00-10:15. */
  lemma AsWrittenMissesInnerAppointment()
    ensures IsTimeOfDay(585) && 585 < 600 < 615 < 585 + 45
    ensures !WriteGuard(Span(585, 585 + 45), Span(600, 615)) && HalfOpen(Span(600, 615), Span(585, 585 + 45))
  {
  }

  // ---------------------------------------------------------------------------------
  // GET /api/bookings

  /** The query string of a listing request. */
  datatype ListQuery = ListQuery(
    status: Option<string>,
    date: Option<string>,
    startDate: Option<string>,
    endDate: Option<string>,
    barberId: Option<string>)

  datatype ListResponse = AppointmentList(appointments: seq<Appointment>) | ListError(status: int, error: string)

  /** The day filter: none, an inclusive range of days, or a date that is not a date. */
  datatype DayFilter = AnyDay | Days(first: int, last: int) | BadDate

  /** A range needs both ends; failing that, a single `date` is a one-day range. */
  function DayFilterOf(q: ListQuery): (r: DayFilter)
    ensures r.BadDate? <==>
      if Given(q.startDate) && Given(q.endDate) then DayOfSplitDate(q.startDate.value).None? || DayOfSplitDate(q.endDate.value).None?
      else Given(q.date) && DayOfSplitDate(q.date.value).None?
    ensures r.AnyDay? <==> !(Given(q.startDate) && Given(q.endDate)) && !Given(q.date)
  {
    if Given(q.startDate) && Given(q.endDate) then
      match (DayOfSplitDate(q.startDate.value), DayOfSplitDate(q.endDate.value))
      case (Some(first), Some(last)) => Days(first, last)
      case _ => BadDate
    else if Given(q.date) then
      match DayOfSplitDate(q.date.value)
      case Some(day) => Days(day, day)
      case None => BadDate
    else AnyDay
  }

  /** The `where` clause of the listing query. */
  predicate Selected(a: Appointment, status: Option<AppointmentStatus>, days: DayFilter, barberId: Option<string>) {
    (status.Some? ==> a.status == status.value)
    && (days.Days? ==> days.first <= a.day <= days.last)
    && (Given(barberId) ==> a.barberId == barberId.value)
  }

  /** The appointments the `where` clause keeps, in table order. */
  function Select(apts: seq<Appointment>, status: Option<AppointmentStatus>, days: DayFilter, barberId: Option<string>): (r: seq<Appointment>)
    ensures |r| <= |apts|
  {
    if |apts| == 0 then []
    else
      var rest := Select(apts[1..], status, days, barberId);
      if Selected(apts[0], status, days, barberId) then [apts[0]] + rest else rest
  }

  /** The selection keeps every selected appointment as often as the table holds it, and nothing else. */
  lemma {:induction false} SelectCounts(apts: seq<Appointment>, status: Option<AppointmentStatus>, days: DayFilter,
                                        barberId: Option<string>, x: Appointment)
    ensures multiset(Select(apts, status, days, barberId))[x]
         == if Selected(x, status, days, barberId) then multiset(apts)[x] else 0
  {
    if |apts| > 0 {
      SelectCounts(apts[1..], status, days, barberId, x);
      assert apts == [apts[0]] + apts[1..];
    }
  }

  /** `orderBy: { startTime: "asc" }`. */
  predicate StartsNoLater(a: Appointment, b: Appointment) {
    a.StartInstant() <= b.StartInstant()
  }

  lemma StartOrderTotal()
    ensures Total(StartsNoLater)
  {
  }

  /** The status filter: `None` when absent; a status name that is not one the schema knows fails the query. */
  function StatusFilter(q: ListQuery): Option<AppointmentStatus> {
    if Given(q.status) then StatusNamed(q.status.value) else None
  }

  /** The response of `GET`, as a function of the stored appointments and the query. */
  function ListAppointments(apts: seq<Appointment>, q: ListQuery): ListResponse {
    var days := DayFilterOf(q);
    if days.BadDate? || (Given(q.status) && StatusNamed(q.status.value).None?) then ListError(500, FetchFailed)
    else
      StartOrderTotal();
      AppointmentList(Sort(Select(apts, StatusFilter(q), days, q.barberId), StartsNoLater))
  }

  /** `GET /api/bookings`. */
  method GetAppointments(db: Database, q: ListQuery) returns (r: ListResponse)
    ensures r == ListAppointments(db.appointments, q)
  {
    var dateFilter := AnyDay;
    if Given(q.startDate) && Given(q.endDate) {
      var rangeStart := DayOfSplitDate(q.startDate.value);
      var rangeEnd := DayOfSplitDate(q.endDate.value);
      dateFilter := if rangeStart.Some? && rangeEnd.Some? then Days(rangeStart.value, rangeEnd.value) else BadDate;
    } else if Given(q.date) {
      var startOfDay := DayOfSplitDate(q.date.value);
      dateFilter := if startOfDay.Some? then Days(startOfDay.value, startOfDay.value) else BadDate;
    }
    var status := None;
    if Given(q.status) {
      status := StatusNamed(q.status.value);
      if status.None? {
        return ListError(500, FetchFailed);
      }
    }
    if dateFilter.BadDate? {
      return ListError(500, FetchFailed);
    }
    StartOrderTotal();
    var appointments := Select(db.appointments, status, dateFilter, q.barberId);
    r := AppointmentList(Sort(appointments, StartsNoLater));
  }

  /**
   * A listing is in start-time order and holds exactly the stored appointments the query
   * selects, each as many times as it is stored.
   */
  lemma ListingIsSelectionInStartOrder(apts: seq<Appointment>, q: ListQuery, x: Appointment)
    requires ListAppointments(apts, q).AppointmentList?
    ensures SortedBy(ListAppointments(apts, q).appointments, StartsNoLater)
    ensures multiset(ListAppointments(apts, q).appointments)[x]
         == if Selected(x, StatusFilter(q), DayFilterOf(q), q.barberId) then multiset(apts)[x] else 0
  {
    SelectCounts(apts, StatusFilter(q), DayFilterOf(q), q.barberId, x);
  }

  /** A listed appointment is in the table, has the requested status, barber and day. */
  lemma ListedMatchQuery(apts: seq<Appointment>, q: ListQuery, x: Appointment)
    requires ListAppointments(apts, q).AppointmentList?
    requires x in ListAppointments(apts, q).appointments
    ensures x in apts
    ensures Given(q.status) ==> StatusName(x.status) == q.status.value
    ensures Given(q.barberId) ==> x.barberId == q.barberId.value
    ensures Given(q.startDate) && Given(q.endDate) ==>
      DayOfSplitDate(q.startDate.value).value <= x.day <= DayOfSplitDate(q.endDate.value).value
    ensures !(Given(q.startDate) && Given(q.endDate)) && Given(q.date) ==> Some(x.day) == DayOfSplitDate(q.date.value)
  {
    ListingIsSelectionInStartOrder(apts, q, x);
  }

  /** An unknown status name or a date that does not parse makes the listing fail. */
  lemma BadFilterFails(apts: seq<Appointment>, q: ListQuery)
    ensures ListAppointments(apts, q).ListError?
        <==> DayFilterOf(q).BadDate? || (Given(q.status) && forall s: AppointmentStatus :: StatusName(s) != q.status.value)
  {
    if Given(q.status) && forall s: AppointmentStatus :: StatusName(s) != q.status.value {
      assert StatusName(Pending) != q.status.value;
    }
  }

  /** With both ends of a range given, the single-day `date` is ignored. */
  lemma RangeOverridesDate(apts: seq<Appointment>, q: ListQuery, other: Option<string>)
    requires Given(q.startDate) && Given(q.endDate)
    ensures ListAppointments(apts, q) == ListAppointments(apts, q.(date := other))
  {
  }

  /** With only one end of a range given, the range is ignored and `date` decides. */
  lemma HalfRangeIgnored(apts: seq<Appointment>, q: ListQuery)
    requires !(Given(q.startDate) && Given(q.endDate))
    ensures ListAppointments(apts, q) == ListAppointments(apts, q.(startDate := None, endDate := None))
  {
  }
}
