# TRIM barbershop booking: slot availability and booking conflicts

This project is a Dafny model of the core of the TRIM barbershop booking application, a
Next.js app backed by Prisma. The model covers:

- the two slot-listing API routes. `GET /api/available-slots` walks the shop's opening hours.
  `GET /api/availability` also applies a barber's weekly work schedule and the chosen
  service's duration;
- the booking API. `POST /api/bookings` checks required fields, looks up the service, picks a
  default barber, computes the end time and runs a write-time collision check before
  inserting. `GET /api/bookings` filters by status, day range and barber, and sorts by start
  time;
- the three overlap tests the routes use, and how they relate;
- the time-string helpers. These are stored "HH:mm" times, slot labels in "h:mm a",
  `getHour24` and `formatTimeDisplay` of the date-time picker, its morning, afternoon and
  evening grouping and its selectable days, and `formatTime` and `getBusinessHours` of the
  contact section;
- the shop-settings singleton. `GET` creates it on first use and `PUT` creates or partially
  updates it;
- the services and barbers routes: a required-field check and insert, and an active-only
  listing ordered by name;
- the form validators, for the booking form and the sign-up form;
- the small state machines of the interface: the five-step booking wizard, the sign-up form's
  loading flags and the testimonial carousel;
- the barber display helpers: `getInitials`, card selection, the specialties line and the
  choice of team-section view.

Times are minutes after midnight of the day they belong to. The current instant is passed in
as milliseconds after midnight of the queried day. Days are day numbers counted from
1970-01-01, and the weekday of a day number is `(day + 4) % 7`. The database is a class
`Store.Database`. It holds the tables as sequences and the single settings record as an
`Option`. The route methods read and update it, and each method is proved equal to a
function of the stored data and the request.

The slot loops are `while` loops. Each is proved to push exactly the slots of a grid
function (`Slots`). The grid's k-th slot starts at `open + k * step`, and the grid stops at
the first start whose slot would run past closing. Each slot's label is the "h:mm a" form of
its minute. A slot is available exactly when it is not past and no blocking appointment
overlaps it.

The booking route reads a slot label back with date-fns' "h:mm a" parser, modelled as
`TimeFormat.Parse12`. `TimeFormat.ParseFormat12` proves that this recovers the minute the
slot routes wrote.

## Notes on the code

- The write-time guard is not the half-open overlap the slot routes use (see "## Findings").
- With no barber requested, the booking goes to the first active barber in table order,
  because the query has no `orderBy`.
- `available-slots` marks a slot past only on the current day. `availability` marks every
  slot before the current instant past, on any day. `AvailabilityRoute.RoutesAgree` proves
  the two agree except on a day that is already over.
- Neither route checks that `slotDuration` is positive. If a slot fits and the step is not
  positive, the loop never ends. The model's route functions therefore require that the loop
  terminates (`Terminates`) and say nothing about such a loop.

## Model

| member | source | states |
|---|---|---|
| Overlap.ThreeClauseIsHalfOpen | app/api/availability/route.ts:109-117 | for slot and appointment spans of positive length, the availability route's three-clause test holds exactly when half-open overlap does |
| Overlap.ThreeClauseDiffersOnEmptySlot | app/api/availability/route.ts:112-116 | for a zero-length slot at an appointment's start, the three-clause test reports a clash that half-open overlap does not |
| Overlap.WriteGuardSound | app/api/bookings/route.ts:138-151 | every collision the two-clause write guard reports is a real half-open overlap, for spans of positive length |
| Overlap.WriteGuardGap | app/api/bookings/route.ts:138-151 | the write guard misses an overlap exactly when the existing appointment lies strictly inside the new booking |
| Overlap.WriteGuardMissesInnerAppointment | app/api/bookings/route.ts:138-151 | an existing 10:00-10:15 appointment overlaps a new 09:45-10:30 booking, but the write guard does not trip |
| Overlap.WriteGuardFixedIsHalfOpen | app/api/bookings/route.ts:138-151 | with the containment clause added, the guard is half-open overlap for positive spans |
| Overlap.HalfOpenTripsFixedGuard | app/api/bookings/route.ts:138-151 | for a booking of non-negative length, every half-open overlap trips the corrected guard |
| Overlap.HalfOpenSymmetric | app/api/available-slots/route.ts:96-101 | half-open overlap does not depend on which span is the slot |
| Overlap.AnyHalfOpenExists | app/api/available-slots/route.ts:96-101 | `some` over the appointment spans holds exactly when some appointment overlaps half-open |
| Overlap.AnyThreeClauseIsAnyHalfOpen | app/api/availability/route.ts:109-117 | for positive spans, `some` with the three-clause test equals `some` with half-open overlap |
| SlotGrid.Starts | app/api/available-slots/route.ts:83-89 | the loop's slot starts begin at the opening time and stay before closing |
| SlotGrid.StartsStep | app/api/available-slots/route.ts:109 | a start that fits is followed by the starts from one step later |
| SlotGrid.StartsShape | app/api/available-slots/route.ts:76-110 | the k-th start is `open + k * step` and fits; the first start past the list does not fit, so that slot is dropped and not marked unavailable |
| SlotGrid.StartsBounds | app/api/available-slots/route.ts:83-89 | starts strictly increase, stay in `[open, close)` and each slot ends by closing time |
| SlotGrid.StartsLength | app/api/availability/route.ts:100-106 | with a positive step, there is a start for each of the first n grid points that fit, and no more |
| SlotGrid.DefaultDay | prisma/seed.ts:146-202 | 09:00-20:00 in half-hour steps gives 22 slots, the last at 19:30 |
| SlotGrid.LongServiceDropsLastSlot | app/api/availability/route.ts:101-106 | a 45-minute service in a 09:00-18:00 schedule with half-hour steps drops the 17:30 slot |
| Store.Database.constructor | app/api/available-slots/route.ts:32 | a fresh database has empty tables and no settings record |
| Store.FindService | app/api/bookings/route.ts:98-100 | the service found has the id asked for; with none found, no service has that id |
| Store.FirstActiveBarber | app/api/bookings/route.ts:112-114 | the barber found is an active one; with none found, no barber is active |
| Store.FindSchedule | app/api/availability/route.ts:56-63 | the schedule row found is the barber's for that weekday; with none found, there is no such row |
| Store.BlockingSpansOverlap | app/api/available-slots/route.ts:56-72 | a slot overlaps a blocking span exactly when some pending or confirmed appointment of that day (and barber, when one is given) overlaps it |
| Store.BlockingSpansFrom | app/api/available-slots/route.ts:56-72 | every blocking span is the span of a blocking appointment |
| Store.BlockingSpans | app/api/available-slots/route.ts:56-72 | the spans of the pending and confirmed appointments of the day (and barber); `BlockingSpansOverlap` and `BlockingSpansFrom` state what they mean |
| AvailableSlotsRoute.MakeSlot | app/api/available-slots/route.ts:91-107 | one iteration's slot: past only on the current day before now, conflicting by half-open overlap, available when neither |
| AvailableSlotsRoute.GenerateSlots | app/api/available-slots/route.ts:74-110 | the loop pushes exactly the slots of the grid |
| AvailableSlotsRoute.SlotsAt | app/api/available-slots/route.ts:83-110 | the k-th slot pushed is the slot of the k-th start |
| AvailableSlotsRoute.GetAvailableSlots | app/api/available-slots/route.ts:12-120 | the route's response is the route function of the stored data, the query and the clock |
| AvailableSlotsRoute.MissingDateIsRejected | app/api/available-slots/route.ts:19-24 | a missing date gives 400 with no slots |
| AvailableSlotsRoute.ClosedDayIsEmpty | app/api/available-slots/route.ts:44-50 | a closed weekday gives an empty list with the closed notice, not an error |
| AvailableSlotsRoute.SundayClosedByDefault | app/api/available-slots/route.ts:5-10 | with no stored settings, every Sunday is closed |
| AvailableSlotsRoute.InvalidDateFails | app/api/available-slots/route.ts:27-72 | a date with a field the model's `Number` (`Text.NumberOf`) refuses makes the appointment query fail with 500 |
| AvailableSlotsRoute.RouteWalks | app/api/available-slots/route.ts:74-112 | past the early returns, the route answers with the grid for the shop's hours, step and the queried duration |
| AvailableSlotsRoute.AvailableSlots | app/api/available-slots/route.ts:12-120 | the route as a function of the stored data, the query and the clock; its cases are stated by the lemmas above |
| AvailableSlotsRoute.GridSlot | app/api/available-slots/route.ts:83-109 | the k-th slot starts at `open + k * step`, ends by closing, is labelled "h:mm a" of its minute, and is available iff it is not past and no blocking appointment overlaps it |
| AvailableSlotsRoute.SlotAtMeans | app/api/available-slots/route.ts:92-107 | the slot pushed for a minute has that meaning |
| AvailableSlotsRoute.GridMeaning | app/api/available-slots/route.ts:83-110 | every slot of the grid has that meaning, and the first grid point after the list does not fit |
| AvailableSlotsRoute.GridTimesParseBack | app/api/available-slots/route.ts:103 | the booking route's "h:mm a" parser reads every slot label back as the slot's start |
| AvailableSlotsRoute.FreeGrid | app/api/available-slots/route.ts:91-107 | with no appointments and a day other than today, every slot is available |
| AvailableSlotsRoute.DefaultMonday | app/api/available-slots/route.ts:5-10 | with no stored settings, a Monday with 30-minute service offers the 22 half-hour slots from 9:00 AM |
| AvailableSlotsRoute.DefaultHoursParse | app/api/available-slots/route.ts:6-7 | the default "09:00" and "20:00" parse to minutes 540 and 1200 |
| AvailabilityRoute.MakeSlot | app/api/availability/route.ts:101-126 | one iteration's slot: booked by the three-clause test, past whenever before now, available when neither |
| AvailabilityRoute.GenerateSlots | app/api/availability/route.ts:99-129 | the loop pushes exactly the slots of the grid |
| AvailabilityRoute.SlotsAt | app/api/availability/route.ts:100-129 | the k-th slot pushed is the slot of the k-th start |
| AvailabilityRoute.GetAvailability | app/api/availability/route.ts:13-139 | the route's response is the route function of the stored data, the query and the clock |
| AvailabilityRoute.OffDayIsEmpty | app/api/availability/route.ts:65-71 | a day the barber's schedule marks as not working gives an empty list with the notice |
| AvailabilityRoute.ClosedDaysFallback | app/api/availability/route.ts:35-40 | a stored empty closed-days list keeps every day open; without settings only Sunday is closed |
| AvailabilityRoute.InvalidDateFails | app/api/availability/route.ts:27-97 | a date the model's ISO parser (`Calendar.DayOfIsoDate`) refuses makes the route fail with 500 |
| AvailabilityRoute.MissingDateIsRejected | app/api/availability/route.ts:20-25 | a missing date gives 400 with no slots |
| AvailabilityRoute.ClosedDayIsEmpty | app/api/availability/route.ts:35-40 | a closed weekday gives an empty list with the closed notice, whatever the barber's schedule |
| AvailabilityRoute.DurationIsTheServices | app/api/availability/route.ts:43-51 | a requested service that exists sets the slot length to its duration |
| AvailabilityRoute.DurationFallsBackToStep | app/api/availability/route.ts:34-51 | without a service, or with an unknown one, the slot length is the stored step, or 30 when it is 0 or there are no settings |
| AvailabilityRoute.WindowIsTheSchedules | app/api/availability/route.ts:53-83 | the barber's row for the weekday sets the window's start and end; an empty time falls back to the shop's |
| AvailabilityRoute.WindowFallsBackToShop | app/api/availability/route.ts:32-33 | without a barber, or without a row for the weekday, the window is the shop's hours, else 09:00 to 20:00 |
| AvailabilityRoute.RouteWalks | app/api/availability/route.ts:74-130 | on an open, working day the loop ends exactly when the grid walk does, and the route then answers the grid of the window with the slot step and the service length |
| AvailabilityRoute.Availability | app/api/availability/route.ts:13-139 | the route as a function of the stored data, the query and the clock; its cases are stated by the lemmas above |
| AvailabilityRoute.BlockingThreeClause | app/api/availability/route.ts:86-117 | `some` over the blocking spans is an existential over the blocking appointments |
| AvailabilityRoute.SlotAtMeans | app/api/availability/route.ts:109-126 | the slot pushed for a minute is labelled with it and is available iff it is not before now and no blocking appointment meets it under the three-clause test |
| AvailabilityRoute.GridSlot | app/api/availability/route.ts:100-128 | the k-th slot starts at `open + k * step`, ends by the window's end and has that meaning |
| AvailabilityRoute.PastDayAllTaken | app/api/availability/route.ts:119-125 | on a day that is already over, every slot of this route is unavailable |
| AvailabilityRoute.RoutesAgree | app/api/availability/route.ts:109-125 | on the current day and later days, for positive lengths, both routes produce the same slot list |
| AvailabilityRoute.BlockingSpansPositive | app/api/availability/route.ts:86-97 | the blocking spans have positive length when the stored appointments do |
| BookingsRoute.SelectedBarber | app/api/bookings/route.ts:109-123 | a requested barber is used as given; otherwise some active barber, and none exactly when no barber is active |
| BookingsRoute.Candidate | app/api/bookings/route.ts:82-128 | the checks before the conflict query and the appointment they build; `CreatedRecord` and the rejection lemmas state its cases |
| BookingsRoute.Collides | app/api/bookings/route.ts:131-153 | the `where` clause of the conflict query: same barber and day, pending or confirmed, and the guard; `FindCollision` states what a search with it finds |
| BookingsRoute.Book | app/api/bookings/route.ts:68-190 | the POST response as a function of the tables, the request and the guard; the lemmas below state its cases |
| BookingsRoute.FindCollision | app/api/bookings/route.ts:131-153 | a collision found is a stored appointment of the same barber and day, active, that trips the guard; none found means no stored appointment does |
| BookingsRoute.CreateBooking | app/api/bookings/route.ts:68-190 | the route's answer is the booking function with the guard passed in (`WriteGuard` is the route as written, `WriteGuardFixed` the corrected one); on 201 exactly the new appointment is appended, and nothing else changes |
| BookingsRoute.MissingFieldsRejected | app/api/bookings/route.ts:82-95 | a request is answered 400 "Missing required fields" exactly when a required field is missing or empty |
| BookingsRoute.UnknownServiceRejected | app/api/bookings/route.ts:97-107 | a complete request naming an unknown service is answered 404, and no other request is |
| BookingsRoute.NoActiveBarberRejected | app/api/bookings/route.ts:109-123 | with no barber requested and no active barber, the answer is 400 |
| BookingsRoute.CreatedRecord | app/api/bookings/route.ts:125-183 | a created appointment holds the customer's fields, the parsed day and start, an end one service duration later, pending status and an existing barber (requested or active) |
| BookingsRoute.BookedAtListedTime | app/api/bookings/route.ts:126-128 | a slot label the slot routes emit is booked at exactly the minute it stands for |
| BookingsRoute.CorrectedBookingKeepsCalendarFree | app/api/bookings/route.ts:131-179 | with the corrected guard, a calendar without double bookings stays without them after a booking |
| BookingsRoute.CorrectedGuardCatchesOverlap | app/api/bookings/route.ts:131-160 | with the corrected guard, a booking that would overlap an active appointment of the barber that day gets 409 |
| BookingsRoute.ConflictIsReal | app/api/bookings/route.ts:131-160 | with either guard, every 409 names a real overlap, for positive lengths |
| BookingsRoute.AsWrittenDoubleBooks | app/api/bookings/route.ts:131-160 | the route as written creates a 45-minute booking around a shorter active appointment strictly inside it, leaving a double booking; the corrected guard answers 409 |
| BookingsRoute.AsWrittenMissesInnerAppointment | app/api/bookings/route.ts:138-151 | 09:45-10:30 against 10:00-10:15: overlapping, yet not caught by the guard as written |
| BookingsRoute.DayFilterOf | app/api/bookings/route.ts:14-41 | a range needs both ends and then beats `date`; no day filter exactly when neither is given; a bad date exactly when a used date does not parse |
| BookingsRoute.SelectCounts | app/api/bookings/route.ts:43-48 | the selection keeps each appointment the `where` clause accepts as often as it is stored, and nothing else |
| BookingsRoute.StartOrderTotal | app/api/bookings/route.ts:53-55 | ordering by start instant is total |
| BookingsRoute.GetAppointments | app/api/bookings/route.ts:5-66 | the route's response is the listing function of the stored appointments and the query |
| BookingsRoute.ListAppointments | app/api/bookings/route.ts:5-66 | the GET response as a function of the table and the query; `ListingIsSelectionInStartOrder`, `ListedMatchQuery` and `BadFilterFails` state it |
| BookingsRoute.ListingIsSelectionInStartOrder | app/api/bookings/route.ts:43-56 | a listing is in ascending start order and is a permutation of the selected appointments |
| BookingsRoute.ListedMatchQuery | app/api/bookings/route.ts:16-48 | every listed appointment is stored and has the requested status, barber and day or day range |
| BookingsRoute.BadFilterFails | app/api/bookings/route.ts:43-65 | an unknown status name or a used date that does not parse makes the listing fail with 500 |
| BookingsRoute.RangeOverridesDate | app/api/bookings/route.ts:16-29 | with both ends of a range given, `date` does not matter |
| BookingsRoute.HalfRangeIgnored | app/api/bookings/route.ts:16-41 | with only one end of a range given, the range is ignored |
| Calendar.Weekday | app/api/available-slots/route.ts:29 | the weekday lies in 0..6 |
| Calendar.LocalDay | app/api/available-slots/route.ts:28 | `new Date(year, month - 1, day)` as a day number; `MonthRollsOver` and `NextDayNextWeekday` state how out-of-range fields carry |
| Calendar.DayOfSplitDate | app/api/available-slots/route.ts:27-28 | the split-and-`Number` date reading; `IsoAgreesWithSplit` and `AvailableSlotsRoute.InvalidDateFails` state it |
| Calendar.NextDayNextWeekday | app/api/available-slots/route.ts:28-29 | the next day of the month is the next day number and the next weekday |
| Calendar.MonthRollsOver | app/api/available-slots/route.ts:28 | month 13 of a year is January of the next |
| Calendar.KnownWeekdays | app/api/available-slots/route.ts:29 | 1970-01-01 was a Thursday and 2024-01-01 a Monday |
| Calendar.DayOfIsoDate | app/api/availability/route.ts:27 | the model's reading of `new Date(s)`, on date-only "YYYY-MM-DD" strings only: a date it reads has that shape |
| Calendar.IsoFields | app/api/availability/route.ts:27 | an ISO date made of in-range digit fields parses to its day |
| Calendar.IsoAgreesWithSplit | app/api/bookings/route.ts:126 | for four-digit years, the ISO form and the split form name the same day |
| TimeFormat.FormatHHMM | types/index.ts:56-57 | a stored time has five characters with the colon in the middle |
| TimeFormat.ParseHHMM | app/api/available-slots/route.ts:76-77 | a parsed "HH:mm" time is a minute of the day |
| TimeFormat.Hour12 | components/landing/location-section.tsx:14 | the 12-hour face lies in 1..12 |
| TimeFormat.Parse12 | app/api/bookings/route.ts:127 | the model's reading of date-fns "h:mm a", with "AM"/"PM" in either case as the only markers: a time it reads is a minute of the day |
| TimeFormat.ParseFormatHHMM | app/api/available-slots/route.ts:76-77 | reading a stored "HH:mm" time gives back the minute it was written from |
| TimeFormat.ParseFormat12 | app/api/bookings/route.ts:127 | reading an "h:mm a" slot label gives back the minute it was written from |
| TimeFormat.Format12 | app/api/available-slots/route.ts:103 | date-fns `format(t, "h:mm a")`; `ParseFormat12` states that `Parse12` reads it back |
| DateTimePicker.FirstMatch | components/booking/date-time-picker.tsx:23 | the regex match found is the leftmost one at or after the index; none found means there is no match |
| DateTimePicker.RemoveMarker | components/booking/date-time-picker.tsx:23 | the first marker match with its surrounding spaces is cut out; `RemoveMarkerOfLabel` states it on labels |
| DateTimePicker.GetHour24 | components/booking/date-time-picker.tsx:20-33 | `getHour24`; `GetHour24Cases` and `GetHour24OfFormat12` state it |
| DateTimePicker.FormatTimeDisplay | components/booking/date-time-picker.tsx:36-38 | `formatTimeDisplay`; `DisplayOfFormat12` states it on slot labels |
| DateTimePicker.GetHour24Cases | components/booking/date-time-picker.tsx:20-33 | PM with an hour other than 12 adds 12, 12 AM is 0, otherwise the hour is kept; for an hour in 1..12 with one marker the result is in 0..23 |
| DateTimePicker.RemoveMarkerOfLabel | components/booking/date-time-picker.tsx:23 | removing the marker from a label of the routes' shape leaves its clock face |
| DateTimePicker.GetHour24OfLabel | components/booking/date-time-picker.tsx:20-33 | `getHour24` of a label of the routes' shape reads its 12-hour field back to the 24-hour hour |
| DateTimePicker.GetHour24OfFormat12 | components/booking/date-time-picker.tsx:20-33 | `getHour24` of a slot label is the hour of its minute |
| DateTimePicker.DisplayOfFormat12 | components/booking/date-time-picker.tsx:36-38 | a slot button shows the label without its marker |
| DateTimePicker.ExactlyOnePeriod | components/booking/date-time-picker.tsx:58-71 | every hour falls in exactly one of morning, afternoon and evening |
| DateTimePicker.Group | components/booking/date-time-picker.tsx:58-71 | a group holds exactly the slots whose hour is in its period |
| DateTimePicker.GroupAppend | components/booking/date-time-picker.tsx:58-71 | grouping keeps the order of the slots |
| DateTimePicker.GroupsPartition | components/booking/date-time-picker.tsx:58-71 | the three groups together hold every slot with a numeric hour exactly once, and nothing else |
| DateTimePicker.SlotOfMinuteIn | components/booking/date-time-picker.tsx:58-71 | the slot of a minute lands in the group of the minute's hour |
| DateTimePicker.RenderGroup | components/booking/date-time-picker.tsx:73-98 | an empty group renders nothing; otherwise one button per slot in order, disabled iff the slot is unavailable, highlighted iff selected, showing the label without its marker |
| DateTimePicker.SelectableDays | components/booking/date-time-picker.tsx:48-55 | a day can be picked exactly when it is today through 30 days ahead and not a Sunday |
| DateTimePicker.SundaySkipped | components/booking/date-time-picker.tsx:51-55 | inside the window, a Saturday and the next Monday can be picked but the Sunday between them cannot |
| LocationSection.FormatTimeOfFields | components/landing/location-section.tsx:10-16 | `formatTime` keeps the minutes verbatim, puts the hour on the 1..12 face and says PM exactly from hour 12 |
| LocationSection.FormatTime | components/landing/location-section.tsx:10-16 | `formatTime`; `FormatTimeOfFields`, `FormatTimeOfStored` and `HourRoundTrip` state it |
| LocationSection.FormatTimeOfStored | components/landing/location-section.tsx:10-16 | a stored opening time is shown exactly as the slot routes label that minute |
| LocationSection.HourRoundTrip | components/landing/location-section.tsx:10-16 | `getHour24(formatTime(t))` is the hour of t |
| LocationSection.OpenWeekdays | components/landing/location-section.tsx:55 | the open weekdays are exactly the days 1..5 not closed, in increasing order |
| LocationSection.OpenWeekdaysAll | components/landing/location-section.tsx:55-56 | all five weekdays are kept exactly when none is closed |
| LocationSection.GetBusinessHours | components/landing/location-section.tsx:40-80 | the pushed rows are the business-hours function of the settings |
| LocationSection.BusinessHours | components/landing/location-section.tsx:41-79 | no settings give no rows; settings give 2 or 3 rows |
| LocationSection.WeekendRows | components/landing/location-section.tsx:65-77 | the last two rows are Saturday and Sunday, each closed, and reading "Closed", exactly when the day is a closed day |
| LocationSection.WeekdayRow | components/landing/location-section.tsx:54-63 | there is a weekday row exactly when some weekday is open; it reads "Monday - Friday" exactly when all five are |
| LocationSection.NamesNotWeekRange | components/landing/location-section.tsx:58-62 | a list of some but not all weekdays never reads "Monday - Friday" |
| Validations.BookingValidIff | lib/validations/booking.ts:3-17 | the booking form is valid exactly when the service, date and slot are set, the name has 2 characters, the e-mail is an address and the phone has 10 pattern characters; barber and notes never matter |
| Validations.BookingIssuePaths | lib/validations/booking.ts:3-17 | each field carries an issue exactly when one of its rules is broken; barber and notes carry none |
| Validations.BookingIssues | lib/validations/booking.ts:3-17 | the schema's issues, in field order; `BookingValidIff` and `BookingIssuePaths` state them |
| Validations.BookingDefaultsRejected | components/booking/booking-form.tsx:156-165 | the untouched wizard fails, with issues on service, date, time slot, name and phone |
| BookingWizard.StepMoves | components/booking/booking-form.tsx:197-207 | Next and Back keep the step in 1..5, undo each other away from the ends, and stand still exactly at the last and first step |
| BookingWizard.CanProceed | components/booking/booking-form.tsx:176-195 | the per-step gate; `ValidFormProceeds` and `GateWeakerThanSchema` relate it to the schema |
| BookingWizard.NextStep | components/booking/booking-form.tsx:197-201 | `handleNext` on the step number; `StepMoves` and `ForwardByStops` state it |
| BookingWizard.BackStep | components/booking/booking-form.tsx:203-207 | `handleBack` on the step number; `StepMoves` states it |
| BookingWizard.ForwardByStops | components/booking/booking-form.tsx:197-201 | n presses of Next move n steps, stopping at step 5 |
| BookingWizard.ValidFormProceeds | components/booking/booking-form.tsx:176-195 | a form the schema accepts is never held back by `canProceed` |
| BookingWizard.GateWeakerThanSchema | components/booking/booking-form.tsx:184-189 | a one-letter name passes step 4 but fails the schema |
| BookingWizard.Wizard.constructor | components/booking/booking-form.tsx:150-165 | the wizard opens on step 1, with the default values and no submission |
| BookingWizard.Wizard.StepName | components/booking/booking-form.tsx:324 | `steps[currentStep - 1]` is in bounds on every reachable state |
| BookingWizard.Wizard.SetValues | components/booking/booking-form.tsx:154-168 | writing the form values changes only the values |
| BookingWizard.Wizard.HandleNext | components/booking/booking-form.tsx:197-201 | the step becomes its successor below 5 and nothing else changes |
| BookingWizard.Wizard.HandleBack | components/booking/booking-form.tsx:203-207 | the step becomes its predecessor above 1 and nothing else changes |
| BookingWizard.Wizard.ClickNext | components/booking/booking-form.tsx:386-394 | a click on Next advances exactly when the form is shown (not yet complete), the button is shown and `canProceed` holds |
| BookingWizard.Wizard.ClickBack | components/booking/booking-form.tsx:376-384 | a click on Back moves back except on step 1, where the button is disabled, and once complete, when the confirmation card replaces the form |
| BookingWizard.Wizard.ClickSubmit | components/booking/booking-form.tsx:209-210 | a submission starts exactly when the form is shown, the button is enabled and the schema accepts the values; it raises `isSubmitting` |
| BookingWizard.Wizard.ButtonsShown | components/booking/booking-form.tsx:228-254 | a completed wizard renders only the confirmation card, so no wizard button can be clicked |
| BookingWizard.Wizard.FinishSubmit | components/booking/booking-form.tsx:211-225 | after the submission `isSubmitting` is false, and `isComplete` is set only on success |
| BookingWizard.WalkThrough | components/booking/booking-form.tsx:176-226 | four enabled Nexts from step 1 reach step 5, where a valid form starts submitting |
| SignupForm.SignupValidIff | components/signup-form.tsx:32-42 | sign-up is valid exactly when the name has 2 characters, the e-mail is an address, the password has 8 and the confirmation equals it |
| SignupForm.SignupIssuePaths | components/signup-form.tsx:32-42 | each field carries an issue exactly when its rule is broken; a mismatch is reported on the confirmation |
| SignupForm.SignupIssues | components/signup-form.tsx:32-42 | the schema's issues; `SignupValidIff` and `SignupIssuePaths` state them |
| SignupForm.SignupDefaultsRejected | components/signup-form.tsx:52-57 | the empty form fails on the name and the password, but not on the confirmation |
| SignupForm.Signup.constructor | components/signup-form.tsx:47-48 | the form opens idle |
| SignupForm.Signup.BeginSubmit | components/signup-form.tsx:60-61 | a submission starts exactly when the form is idle and valid, and raises `isLoading` |
| SignupForm.Signup.FinishSubmit | components/signup-form.tsx:62-86 | whatever the outcome, `isLoading` ends false |
| SignupForm.Signup.BeginSocial | components/signup-form.tsx:88-89 | a social click records its provider unless one is already under way |
| SignupForm.Signup.SocialFailed | components/signup-form.tsx:95-100 | a social sign-in that throws clears the provider |
| SignupForm.SubmitOnce | components/signup-form.tsx:60-86 | a submission on an idle form runs exactly when the form is valid and leaves the form idle |
| ShopSettingsRoute.Coalesce | app/api/shop-settings/route.ts:57-64 | `??` keeps a given value and falls back on both `undefined` and `null` |
| ShopSettingsRoute.Apply | app/api/shop-settings/route.ts:72-79 | a given field replaces the current value; an omitted field keeps it |
| ShopSettingsRoute.Get | app/api/shop-settings/route.ts:15-34 | GET as a function of the stored record; `GetIdempotent` states it |
| ShopSettingsRoute.Put | app/api/shop-settings/route.ts:36-92 | PUT as a function of the stored record and the body; `PutCreates`, `PutUpdates`, `PutIdempotent` and `NullDiffersByBranch` state it |
| ShopSettingsRoute.GetShopSettings | app/api/shop-settings/route.ts:15-34 | GET answers the stored record, or creates and stores the defaults; nothing else changes |
| ShopSettingsRoute.PutShopSettings | app/api/shop-settings/route.ts:36-92 | PUT answers and stores the create-or-update result; nothing else changes |
| ShopSettingsRoute.GetIdempotent | app/api/shop-settings/route.ts:18-26 | GET creates the defaults only without a record, and a second GET answers the same record |
| ShopSettingsRoute.PutCreates | app/api/shop-settings/route.ts:53-66 | with no record, PUT stores each field as given, or as its default when left out or `null` |
| ShopSettingsRoute.EmptyPutIsGet | app/api/shop-settings/route.ts:53-66 | an empty PUT on an empty store creates the record GET would |
| ShopSettingsRoute.PutUpdates | app/api/shop-settings/route.ts:67-81 | on a record, a PUT without `null` changes exactly the given fields and keeps the id and every other field |
| ShopSettingsRoute.PutIdempotent | app/api/shop-settings/route.ts:67-81 | an empty PUT leaves the record as it is, and repeating a PUT changes nothing more |
| ShopSettingsRoute.NullDiffersByBranch | app/api/shop-settings/route.ts:57-79 | `null` falls back to the default on creation, but fails the update with 500 and leaves the record |
| ServicesRoute.NameOrderTotal | app/api/services/route.ts:10-12 | ordering by name is total |
| ServicesRoute.CreateService | app/api/services/route.ts:25-55 | POST answers the post function; on 201 exactly the new service is appended |
| ServicesRoute.ListServices | app/api/services/route.ts:4-23 | GET returns the active services ordered by name |
| ServicesRoute.PostServiceFields | app/api/services/route.ts:30-47 | POST is refused exactly when the name, duration or price is missing or falsy; otherwise the stored service carries the body's fields and is active |
| ServicesRoute.PostService | app/api/services/route.ts:25-55 | POST as a function of the body; `PostServiceFields` and `ZeroRejected` state it |
| ServicesRoute.ZeroRejected | app/api/services/route.ts:30-35 | a zero duration or a zero price is refused with 400 |
| ServicesRoute.ListedServices | app/api/services/route.ts:6-13 | the listing is sorted by name and holds exactly the active services, each as often as stored |
| ServicesRoute.AllActiveAllListed | app/api/services/route.ts:6-9 | when every service is active, all of them are listed |
| BarbersRoute.NameOrderTotal | app/api/barbers/route.ts:4-23 | ordering by name is total |
| BarbersRoute.CreateBarber | app/api/barbers/route.ts:25-56 | POST answers the post function; on 201 exactly the new barber is appended |
| BarbersRoute.ListBarbers | app/api/barbers/route.ts:4-23 | GET returns the active barbers ordered by name |
| BarbersRoute.PostBarberFields | app/api/barbers/route.ts:30-46 | POST is refused exactly when the name is missing or empty; otherwise the barber carries the body's fields, with missing specialties stored as [] |
| BarbersRoute.PostBarber | app/api/barbers/route.ts:25-56 | POST as a function of the body; `PostBarberFields` states it |
| BarbersRoute.ListedBarbers | app/api/barbers/route.ts:4-23 | the listing is sorted by name and holds exactly the active barbers, each as often as stored |
| BarbersRoute.CreatedBarberListed | app/api/barbers/route.ts:37-48 | a newly created barber appears in the next listing |
| BarberDisplay.FirstCharsOfWords | components/booking/barber-selector.tsx:15-21 | on non-empty words, one first character per word, in order |
| BarberDisplay.GetInitials | components/booking/barber-selector.tsx:15-21 | `getInitials`; `InitialsOfWords` and `InitialsSkipEmptyWords` state it |
| BarberDisplay.InitialsOfWords | components/booking/barber-selector.tsx:15-21 | a name of k non-empty words joined by single spaces has k initials, the i-th being the upper-cased first letter of word i |
| BarberDisplay.InitialsSkipEmptyWords | components/landing/barbers-section.tsx:14-20 | an empty name has no initials, and an empty word adds none |
| BarberDisplay.FirstCharsAppend | components/booking/barber-selector.tsx:17-19 | the initials of two runs of words are those of the first run followed by those of the second |
| BarberDisplay.ClickMarksOneCard | components/booking/barber-selector.tsx:73-75 | clicking a barber with a unique id marks that card only, and not "Any Available" |
| BarberDisplay.ClickAnyClears | components/booking/barber-selector.tsx:40-45 | clicking "Any Available" marks it and no barber card |
| BarberDisplay.CardSpecialties | components/booking/barber-selector.tsx:87-91 | a selection card shows the first min(2, n) specialties |
| BarberDisplay.CardSpecialtyLine | components/booking/barber-selector.tsx:87-91 | the specialties line is present exactly when the barber has specialties |
| BarberDisplay.SpecialtyLineShape | components/booking/barber-selector.tsx:89 | one specialty is shown alone; with more, the first two are joined by ", " |
| BarberDisplay.CardOf | components/landing/barbers-section.tsx:50-83 | a team card carries the name and initials, the bio exactly when it is truthy, and all specialties exactly when there are some |
| BarberDisplay.TeamSection | components/landing/barbers-section.tsx:39-48 | the team section's view; `TeamSectionCases` states it |
| BarberDisplay.TeamSectionCases | components/landing/barbers-section.tsx:39-48 | exactly one of loading, empty and grid is shown; the grid has one card per barber in order |
| Testimonials.NextIndex | components/landing/testimonials-section.tsx:55-57 | the next index is i + 1, or 0 after the last, and stays in [0, n) |
| Testimonials.PrevIndex | components/landing/testimonials-section.tsx:59-63 | the previous index is i - 1, or n - 1 before the first, and stays in [0, n) |
| Testimonials.NextPrevInverse | components/landing/testimonials-section.tsx:55-63 | previous after next, and next after previous, are the identity |
| Testimonials.ForwardBelowEnd | components/landing/testimonials-section.tsx:55-57 | k next presses that do not pass the last testimonial advance by k |
| Testimonials.ForwardCompose | components/landing/testimonials-section.tsx:55-57 | a presses followed by b more are a + b presses |
| Testimonials.ForwardFullCycle | components/landing/testimonials-section.tsx:55-57 | n next presses come back to the starting index |
| Testimonials.ForwardStep | components/landing/testimonials-section.tsx:55-57 | one more press after k is next of the index after k |
| Testimonials.Carousel.constructor | components/landing/testimonials-section.tsx:53 | the carousel opens on testimonial 0 |
| Testimonials.Carousel.NextTestimonial | components/landing/testimonials-section.tsx:55-57 | the index becomes the next index and stays valid |
| Testimonials.Carousel.PrevTestimonial | components/landing/testimonials-section.tsx:59-63 | the index becomes the previous index and stays valid |
| Testimonials.Carousel.ClickDot | components/landing/testimonials-section.tsx:133-136 | a dot click sets the index to that dot's index |
| Testimonials.Carousel.CycleForward | components/landing/testimonials-section.tsx:55-57 | pressing next once per testimonial returns to the starting one |
| Testimonials.OneDotActive | components/landing/testimonials-section.tsx:137-139 | exactly the dot of the current index is highlighted |
| Domain.StatusNamed | types/index.ts:43-48 | a status name read from a query is one of the five statuses, and an unknown name is none of them |
| Text.ParseIntNumeral | components/landing/location-section.tsx:12 | `parseInt` reads a decimal numeral back, whatever non-digit follows it |
| Text.ParseInt | components/landing/location-section.tsx:12 | `parseInt` in base 10: white space, a sign, then the longest run of digits; `ParseIntNumeral` states it on numerals |
| Text.DigitsValueOfNatToString | components/landing/location-section.tsx:15 | the decimal string of n has value n |
| Text.Pad2Value | app/api/available-slots/route.ts:103 | a two-digit padded number has its value |
| Text.SplitJoin | components/booking/barber-selector.tsx:17 | splitting undoes joining when no piece holds the separator |
| Text.Upper | components/booking/barber-selector.tsx:20 | upper-casing keeps the length and maps each character |
| Text.Trim | components/booking/date-time-picker.tsx:37 | the result is a slice of the input that neither starts nor ends with white space, and everything cut off either end is white space |
| Lists.FilterMembers | app/api/services/route.ts:7-9 | a filtered list holds exactly the elements the filter accepts |
| Lists.FilterAppend | components/booking/date-time-picker.tsx:58-71 | filtering keeps list order: it distributes over concatenation |
| Lists.FilterKeepsAll | app/api/services/route.ts:7-9 | a filter keeps the whole list exactly when it accepts every element |
| Sorting.Sort | app/api/services/route.ts:10-12 | the sorted list is ascending and a permutation of its input |

## Findings

| source | as written | input that shows it | evidently intended | confidence | as-written member | corrected member |
|---|---|---|---|---|---|---|
| app/api/bookings/route.ts:131-160 | an existing appointment blocks a booking only if it contains the start (`start <= s < end`) or the end (`start < e <= end`) of the new booking | an active 10:00-10:15 appointment and a 45-minute booking at "9:45 AM", same barber and day: the booking is created and the barber is double-booked | the same half-open overlap the slot routes use: a stored appointment inside the new booking would also block it | not executed | BookingsRoute.AsWrittenDoubleBooks | BookingsRoute.CorrectedBookingKeepsCalendarFree |

The write guard is a parameter of `BookingsRoute.Book`. Passing `WriteGuard` gives the route as
written and passing `WriteGuardFixed` gives the corrected one. `BookingsRoute.CreateBooking`
takes the guard as a parameter, so the same method models both. `Overlap.WriteGuardGap` characterises the gap: the missed overlaps
are exactly the appointments strictly inside the new booking.

## Left out

- Database I/O: Prisma queries become functions over the tables of `Store.Database`. The
  `include` of barber and service in the booking responses is not modelled. New record ids
  are generated by the database; the methods take them as parameters.
- The check-then-insert race in `POST /api/bookings` is a concurrency matter the route does
  not address, so the model treats each request as running alone.
- JavaScript `Date` time zones: `new Date("YYYY-MM-DD")` parses as UTC. The model works on
  day numbers and assumes local time is UTC, so no weekday shifts.
- The clock: a route's current time is a parameter `nowMs`, in milliseconds after the queried
  day's midnight.
- A JSON body that fails to parse, and fields of the wrong JSON type, are not modelled. Both
  lead to the generic 500 in the source.
- A failed database call leads to the generic 500. It is modelled only where the model can
  name the cause: an Invalid Date, an unknown status name, a missing barber on insert, or a
  `null` in the settings update.
- ShopSettingsRoute.PutShopSettings: a `null` in the update branch is taken to fail with 500
  and leave the record unchanged, because the settings columns are not nullable. The schema
  file is not part of this model.
- ServicesRoute.PostService and BarbersRoute.PostBarber: new rows are active because the table
  default is assumed to be `true`. The schema file is not part of this model.
- `parseInt` and `Number` quirks: a `NaN` is `None`. `parseInt` reads leading white space and a
  sign; its `0x` prefixes are not modelled. Number-to-string is decimal digits only.
- Text.NumberOf: `Number` is read only on a run of decimal digits (the empty string is 0).
  Surrounding white space, a sign, a fraction, an exponent, `0x` and `Infinity`, which `Number`
  reads, give `None` here.
- Calendar.DayOfIsoDate: `new Date(s)` is read only on date-only "YYYY-MM-DD" strings. ISO
  date-times and the legacy forms V8 also accepts (such as "2024-1-5") give `None` here, where
  the source gets a date.
- TimeFormat.Parse12: date-fns "h:mm a" is read with "AM" and "PM" (either case) as the only
  day-period markers. Forms date-fns also accepts, such as "a.m." or "p.m.", give `None` here.
- AvailabilityRoute.InvalidDateFails: it covers only the dates `Calendar.DayOfIsoDate` refuses.
  On a date-time or a legacy form the source proceeds with a date; the model answers 500.
- AvailableSlotsRoute.InvalidDateFails: it covers only the dates whose fields `Text.NumberOf`
  refuses. On a field such as " 5" or "5.0" the source proceeds with a number; the model
  answers 500.
- BookingsRoute.CreatedRecord: the created appointment is `Pending` because the `status` column
  is assumed to default to `PENDING`; the route does not set it. The schema file is not part of
  this model.
- Email validity is the parameter `isEmail`. `BookingWizard.ValidFormProceeds` assumes the empty
  string is not an address.
- The label formatter is the parameter `fmt` inside the slot loops. The routes pass
  `TimeFormat.Format12`.
- String lengths count characters, not UTF-16 code units. `toUpperCase` maps ASCII letters
  only. Name ordering is code-point order. Prisma's database collation is not modelled.
- Appointment status transitions belong to a route that is not part of this model, and no
  transition table exists to verify.
- The booking wizard's simulated two-second delay, its toasts, and submission by the Enter
  key are left out. So are the fetch effects of the landing sections, and the redirect of a
  successful social sign-in.
- Presentation markup, the mock data arrays of the booking form, the login form, the auth
  client and the SWR glue are not part of this model.
- Loops whose step is not positive and that would never end are excluded by the `Terminates`
  preconditions. The source does not guard against them. In `available-slots` a stored
  `slotDuration` of 0 is used as it is, and in both routes a negative one is, so such a
  setting hangs the request whenever a slot fits.
