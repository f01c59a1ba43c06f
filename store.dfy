/**
 * The database the routes query and write: one table per stored entity plus the
 * optional shop-settings record. Queries are pure functions over the tables.
 */
module Store {
  import opened Wrappers
  import opened Overlap
  import opened Domain

  class Database {
    var services: seq<Service>
    var barbers: seq<Barber>
    var schedules: seq<WorkSchedule>
    var appointments: seq<Appointment>
    var settings: Option<ShopSettings>

    /** A fresh, empty database. */
    constructor()
      ensures services == [] && barbers == [] && schedules == [] && appointments == []
      ensures settings == None
    {
      services := [];
      barbers := [];
      schedules := [];
      appointments := [];
      settings := None;
    }
  }

  /** `service.findUnique({ where: { id } })`. */
  function FindService(services: seq<Service>, id: string): (r: Option<Service>)
    ensures r.Some? ==> r.value in services && r.value.id == id
    ensures r.None? ==> forall k :: 0 <= k < |services| ==> services[k].id != id
  {
    if |services| == 0 then None
    else if services[0].id == id then Some(services[0])
    else FindService(services[1..], id)
  }

  /** `barber.findFirst({ where: { isActive: true } })`, in table order. */
  function FirstActiveBarber(barbers: seq<Barber>): (r: Option<Barber>)
    ensures r.Some? ==> r.value in barbers && r.value.isActive
    ensures r.None? ==> forall k :: 0 <= k < |barbers| ==> !barbers[k].isActive
  {
    if |barbers| == 0 then None
    else if barbers[0].isActive then Some(barbers[0])
    else FirstActiveBarber(barbers[1..])
  }

  /** Whether some barber row has this id (the foreign key an appointment needs). */
  predicate BarberExists(barbers: seq<Barber>, id: string) {
    exists k :: 0 <= k < |barbers| && barbers[k].id == id
  }

  /** `workSchedule.findUnique({ where: { barberId_dayOfWeek } })`. */
  function FindSchedule(schedules: seq<WorkSchedule>, barberId: string, dayOfWeek: int): (r: Option<WorkSchedule>)
    ensures r.Some? ==> r.value in schedules && r.value.barberId == barberId && r.value.dayOfWeek == dayOfWeek
    ensures r.None? ==> forall k :: 0 <= k < |schedules| ==>
      !(schedules[k].barberId == barberId && schedules[k].dayOfWeek == dayOfWeek)
  {
    if |schedules| == 0 then None
    else if schedules[0].barberId == barberId && schedules[0].dayOfWeek == dayOfWeek then Some(schedules[0])
    else FindSchedule(schedules[1..], barberId, dayOfWeek)
  }

  /**
   * The filter both slot routes put on their appointment query: active status, the
   * requested day, and the requested barber when one is given.
   */
  predicate Blocks(a: Appointment, day: int, barberId: Option<string>) {
    IsActive(a.status) && a.day == day && (Given(barberId) ==> a.barberId == barberId.value)
  }

  /** The spans of the appointments that can block a slot on `day`. */
  function BlockingSpans(apts: seq<Appointment>, day: int, barberId: Option<string>): (r: seq<Span>)
    ensures |r| <= |apts|
  {
    if |apts| == 0 then []
    else
      var rest := BlockingSpans(apts[1..], day, barberId);
      if Blocks(apts[0], day, barberId) then [apts[0].Span()] + rest else rest
  }

  /** A slot overlaps one of the blocking spans exactly when it overlaps a blocking appointment. */
  lemma {:induction false} BlockingSpansOverlap(slot: Span, apts: seq<Appointment>, day: int, barberId: Option<string>)
    ensures AnyHalfOpen(slot, BlockingSpans(apts, day, barberId))
        <==> exists k :: 0 <= k < |apts| && Blocks(apts[k], day, barberId) && HalfOpen(slot, apts[k].Span())
  {
    if |apts| > 0 {
      BlockingSpansOverlap(slot, apts[1..], day, barberId);
      var rest := BlockingSpans(apts[1..], day, barberId);
      if Blocks(apts[0], day, barberId) {
        assert ([apts[0].Span()] + rest)[1..] == rest;
      }
      if exists k :: 0 <= k < |apts| && Blocks(apts[k], day, barberId) && HalfOpen(slot, apts[k].Span()) {
        var k :| 0 <= k < |apts| && Blocks(apts[k], day, barberId) && HalfOpen(slot, apts[k].Span());
        if k > 0 {
          assert apts[1..][k - 1] == apts[k];
        }
      }
      if exists k :: 0 <= k < |apts[1..]| && Blocks(apts[1..][k], day, barberId) && HalfOpen(slot, apts[1..][k].Span()) {
        var k :| 0 <= k < |apts[1..]| && Blocks(apts[1..][k], day, barberId) && HalfOpen(slot, apts[1..][k].Span());
        assert apts[k + 1] == apts[1..][k];
      }
    }
  }

  /** Every blocking span is the span of a blocking appointment. */
  lemma {:induction false} BlockingSpansFrom(apts: seq<Appointment>, day: int, barberId: Option<string>)
    ensures forall x :: x in BlockingSpans(apts, day, barberId) ==>
      exists k :: 0 <= k < |apts| && Blocks(apts[k], day, barberId) && apts[k].Span() == x
  {
    if |apts| > 0 {
      BlockingSpansFrom(apts[1..], day, barberId);
      forall x | x in BlockingSpans(apts, day, barberId)
        ensures exists k :: 0 <= k < |apts| && Blocks(apts[k], day, barberId) && apts[k].Span() == x
      {
        if x in BlockingSpans(apts[1..], day, barberId) {
          var k :| 0 <= k < |apts[1..]| && Blocks(apts[1..][k], day, barberId) && apts[1..][k].Span() == x;
          assert apts[k + 1] == apts[1..][k];
        }
      }
    }
  }
}
