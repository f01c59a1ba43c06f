/** The records the system stores (the `types` of the application). */
module Domain {
  import opened Wrappers
  import opened Overlap

  datatype AppointmentStatus = Pending | Confirmed | Cancelled | Completed | NoShow

  /** Only pending and confirmed appointments occupy the calendar. */
  predicate IsActive(s: AppointmentStatus) { s == Pending || s == Confirmed }

  function StatusName(s: AppointmentStatus): string {
    match s
    case Pending => "PENDING"
    case Confirmed => "CONFIRMED"
    case Cancelled => "CANCELLED"
    case Completed => "COMPLETED"
    case NoShow => "NO_SHOW"
  }

  /** The status a query string names, if it names one. */
  function StatusNamed(name: string): (r: Option<AppointmentStatus>)
    ensures r.Some? ==> StatusName(r.value) == name
    ensures r.None? ==> forall s: AppointmentStatus :: StatusName(s) != name
  {
    if name == "PENDING" then Some(Pending)
    else if name == "CONFIRMED" then Some(Confirmed)
    else if name == "CANCELLED" then Some(Cancelled)
    else if name == "COMPLETED" then Some(Completed)
    else if name == "NO_SHOW" then Some(NoShow)
    else None
  }

  /**
   * An appointment. `day` is its calendar day (days since 1970-01-01); `start` and `end`
   * are minutes after midnight of that day.
   */
  datatype Appointment = Appointment(
    id: string,
    customerName: string,
    customerEmail: string,
    customerPhone: string,
    day: int,
    start: int,
    end: int,
    status: AppointmentStatus,
    notes: Option<string>,
    barberId: string,
    serviceId: string)
  {
    function Span(): Overlap.Span { Overlap.Span(start, end) }

    /** The start as one number across days, the key the appointment list is ordered by. */
    function StartInstant(): int { day * 1440 + start }
  }

  datatype Service = Service(
    id: string,
    name: string,
    description: Option<string>,
    duration: int,
    price: real,
    imageUrl: Option<string>,
    isActive: bool)

  datatype Barber = Barber(
    id: string,
    name: string,
    email: Option<string>,
    phone: Option<string>,
    bio: Option<string>,
    imageUrl: Option<string>,
    specialties: seq<string>,
    isActive: bool)

  /** A barber's hours for one weekday. */
  datatype WorkSchedule = WorkSchedule(
    barberId: string,
    dayOfWeek: int,
    startTime: string,
    endTime: string,
    isWorking: bool)

  datatype ShopSettings = ShopSettings(
    id: string,
    shopName: string,
    address: string,
    phone: string,
    email: string,
    openTime: string,
    closeTime: string,
    slotDuration: int,
    closedDays: seq<int>)

  /** One entry of a slot list sent to the client. */
  datatype TimeSlot = TimeSlot(time: string, available: bool)

  /** The body a slot route answers with: a slot list (with an optional notice) or an error. */
  datatype SlotsResponse = SlotList(slots: seq<TimeSlot>, message: Option<string>) | SlotError(status: int, error: string)

  /** A query-string or body field is truthy: present and not the empty string. */
  predicate Given(f: Option<string>) { f.Some? && f.value != "" }
}
