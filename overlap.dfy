/**
 * The three tests the system uses to decide whether a time span collides with an
 * existing appointment, and how they relate. Spans are minute offsets `[start, end)`.
 */
module Overlap {

  datatype Span = Span(start: int, end: int)

  predicate Positive(x: Span) { x.start < x.end }

  /** Slot test of the available-slots route: the slot starts before the appointment ends
      and ends after it starts, so spans that merely touch do not collide. */
  predicate HalfOpen(slot: Span, apt: Span) {
    slot.start < apt.end && slot.end > apt.start
  }

  /** Slot test of the availability route: the slot starts inside the appointment, ends
      inside it, or covers it. */
  predicate ThreeClause(slot: Span, apt: Span) {
    (slot.start >= apt.start && slot.start < apt.end)
    || (slot.end > apt.start && slot.end <= apt.end)
    || (slot.start <= apt.start && slot.end >= apt.end)
  }

  /** Write-time test of the booking route, as written: an existing appointment collides when
      it contains the new start, or contains the new end. */
  predicate WriteGuard(booking: Span, existing: Span) {
    (existing.start <= booking.start && existing.end > booking.start)
    || (existing.start < booking.end && existing.end >= booking.end)
  }

  /** The write-time test with the missing clause added: the existing appointment also collides
      when it lies within the new booking. */
  predicate WriteGuardFixed(booking: Span, existing: Span) {
    WriteGuard(booking, existing)
    || (booking.start <= existing.start && existing.end <= booking.end)
  }

  /** The availability route's three clauses decide exactly half-open overlap for spans of positive length. */
  lemma ThreeClauseIsHalfOpen(slot: Span, apt: Span)
    requires Positive(slot) && Positive(apt)
    ensures ThreeClause(slot, apt) <==> HalfOpen(slot, apt)
  {
  }

  /** With a zero-length slot the two slot tests part: a slot at the very start of an
      appointment is booked for one route and free for the other. */
  lemma ThreeClauseDiffersOnEmptySlot()
    ensures ThreeClause(Span(540, 540), Span(540, 600)) && !HalfOpen(Span(540, 540), Span(540, 600))
  {
  }

  /** Every collision the write guard reports is a real overlap. */
  lemma WriteGuardSound(booking: Span, existing: Span)
    requires Positive(booking)
    requires WriteGuard(booking, existing)
    ensures HalfOpen(booking, existing)
  {
  }

  /** The overlaps the write guard misses are exactly the existing appointments strictly inside the new booking. */
  lemma WriteGuardGap(booking: Span, existing: Span)
    requires Positive(booking) && Positive(existing)
    ensures (HalfOpen(booking, existing) && !WriteGuard(booking, existing))
       <==> (booking.start < existing.start && existing.end < booking.end)
  {
  }

  /** An existing 10:00-10:15 appointment does not stop a new 09:45-10:30 booking. */
  lemma WriteGuardMissesInnerAppointment()
    ensures HalfOpen(Span(585, 630), Span(600, 615))
    ensures !WriteGuard(Span(585, 630), Span(600, 615))
  {
  }

  /** With the containment clause the write guard is half-open overlap. */
  lemma WriteGuardFixedIsHalfOpen(booking: Span, existing: Span)
    requires Positive(booking) && Positive(existing)
    ensures WriteGuardFixed(booking, existing) <==> HalfOpen(booking, existing)
  {
  }

  /** For a booking of non-negative length, every half-open overlap trips the corrected guard. */
  lemma HalfOpenTripsFixedGuard(booking: Span, existing: Span)
    requires booking.start <= booking.end
    ensures HalfOpen(booking, existing) ==> WriteGuardFixed(booking, existing)
  {
  }

  /** Half-open overlap does not depend on which span is the slot. */
  lemma HalfOpenSymmetric(x: Span, y: Span)
    ensures HalfOpen(x, y) <==> HalfOpen(y, x)
  {
  }

  /** `appointments.some(apt => HalfOpen(slot, apt))`. */
  function AnyHalfOpen(slot: Span, apts: seq<Span>): bool {
    |apts| > 0 && (HalfOpen(slot, apts[0]) || AnyHalfOpen(slot, apts[1..]))
  }

  /** `appointments.some(apt => ThreeClause(slot, apt))`. */
  function AnyThreeClause(slot: Span, apts: seq<Span>): bool {
    |apts| > 0 && (ThreeClause(slot, apts[0]) || AnyThreeClause(slot, apts[1..]))
  }

  /** `some` is an existential. */
  lemma {:induction false} AnyHalfOpenExists(slot: Span, apts: seq<Span>)
    ensures AnyHalfOpen(slot, apts) <==> exists i :: 0 <= i < |apts| && HalfOpen(slot, apts[i])
  {
    if |apts| > 0 {
      AnyHalfOpenExists(slot, apts[1..]);
      if !HalfOpen(slot, apts[0]) && AnyHalfOpen(slot, apts[1..]) {
        var i :| 0 <= i < |apts[1..]| && HalfOpen(slot, apts[1..][i]);
        assert HalfOpen(slot, apts[i + 1]);
      }
      if exists i :: 0 <= i < |apts| && HalfOpen(slot, apts[i]) {
        var i :| 0 <= i < |apts| && HalfOpen(slot, apts[i]);
        if i > 0 {
          assert HalfOpen(slot, apts[1..][i - 1]);
        }
      }
    }
  }

  /** For positive spans the two slot routes mark the same slots as booked. */
  lemma {:induction false} AnyThreeClauseIsAnyHalfOpen(slot: Span, apts: seq<Span>)
    requires Positive(slot)
    requires forall i :: 0 <= i < |apts| ==> Positive(apts[i])
    ensures AnyThreeClause(slot, apts) == AnyHalfOpen(slot, apts)
  {
    if |apts| > 0 {
      ThreeClauseIsHalfOpen(slot, apts[0]);
      AnyThreeClauseIsAnyHalfOpen(slot, apts[1..]);
    }
  }
}
