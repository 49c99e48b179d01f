/**
 The booking entity's own rules: `clean` (date ordering and no past dates),
 `save` (validate, then persist), `check_availability` (overlap filter with
 the booking's own row excluded) and `get_duration_days`.
 */
module BookingModel {
  import opened Common
  import opened Ledger
  import Sorting

  /**
   `Booking.clean`: collects every violated rule rather than stopping at the
   first. The rules apply only when both dates are set.
   */
  function Clean(start: Option<Day>, end: Option<Day>, today: Day): (errors: seq<Violation>)
    ensures EndNotAfterStart in errors <==> start.Some? && end.Some? && start.value >= end.value
    ensures StartInPast in errors <==> start.Some? && end.Some? && start.value < today
    ensures |errors| <= 2
    ensures |errors| == 2 ==> errors == [EndNotAfterStart, StartInPast]
  {
    if start.Some? && end.Some? then
      (if start.value >= end.value then [EndNotAfterStart] else [])
      + (if start.value < today then [StartInPast] else [])
    else []
  }

  /** The messages a list of violations is reported with, in the same order. */
  function Messages(vs: seq<Violation>): (errors: seq<Error>)
    ensures |errors| == |vs|
    ensures forall i :: 0 <= i < |vs| ==> errors[i] == Invalid(vs[i])
  {
    if vs == [] then [] else [Invalid(vs[0])] + Messages(vs[1..])
  }

  /**
   The errors `full_clean` collects for a new booking: the foreign-key check
   of the room field first, then the messages of `clean`.
   */
  function FullClean(st: Store, room: Id, start: Day, end: Day, today: Day): (errors: seq<Error>)
    ensures errors == [] <==> room in st.rooms && start < end && today <= start
    ensures MissingRoomReference in errors <==> room !in st.rooms
  {
    (if room in st.rooms then [] else [MissingRoomReference])
    + Messages(Clean(Some(start), Some(end), today))
  }

  /**
   `Booking.save`: runs full validation and persists the booking only when
   validation found nothing; returns the new primary key and store.
   */
  function Save(st: Store, room: Id, start: Day, end: Day, today: Day): (r: Result<(Id, Store), seq<Error>>)
    ensures r.Success? <==> room in st.rooms && start < end && today <= start
    ensures r.Failure? ==> r.error != [] && r.error == FullClean(st, room, start, end, today)
    ensures r.Success? && KeysBelowCounters(st) ==>
      AddsOneBooking(st, r.value.1, r.value.0, room, start, end)
  {
    var errors := FullClean(st, room, start, end, today);
    if errors != [] then Failure(errors)
    else Success((st.nextBookingId, AddBooking(st, room, start, end)))
  }

  /**
   The primary keys `exclude(pk=self.pk)` removes: the booking's own key,
   but only when it is set and truthy (key 0 is never excluded).
   */
  function SelfKey(pk: Option<Id>): set<Id> {
    if pk.Some? && pk.value != 0 then {pk.value} else {}
  }

  /**
   `Booking.check_availability`: true when no booking of the same room,
   other than this booking's own row, overlaps its stay.
   */
  function CheckAvailability(bookings: map<Id, Booking>, b: Booking, pk: Option<Id>): (free: bool)
    ensures free <==> forall id :: id in bookings && bookings[id].room == b.room && id !in SelfKey(pk)
                                 ==> !Overlaps(bookings[id], b.start, b.end)
  {
    !exists id :: id in Conflicts(bookings, b.room, b.start, b.end) && id !in SelfKey(pk)
  }

  /** `Booking.get_duration_days`: the number of nights of the stay. */
  function DurationDays(b: Booking): (days: int)
    ensures b.start + days == b.end
    ensures days > 0 <==> b.start < b.end
  {
    b.end - b.start
  }

  /** The days a stay occupies: check-in day included, check-out day excluded. */
  function Nights(start: Day, end: Day): set<Day>
    decreases end - start
  {
    if end <= start then {} else Nights(start, end - 1) + {end - 1}
  }

  lemma {:induction false} NightsMembers(start: Day, end: Day, d: Day)
    ensures d in Nights(start, end) <==> start <= d < end
    decreases end - start
  {
    if start < end {
      NightsMembers(start, end - 1, d);
    }
  }

  /** The duration counts exactly the nights the stay occupies. */
  lemma {:induction false} DurationCountsNights(b: Booking)
    requires b.start <= b.end
    ensures |Nights(b.start, b.end)| == DurationDays(b)
    decreases b.end - b.start
  {
    if b.start < b.end {
      var shorter := b.(end := b.end - 1);
      DurationCountsNights(shorter);
      NightsMembers(b.start, b.end - 1, b.end - 1);
    }
  }

  /** A booking that passed `clean` lasts at least one night. */
  lemma CleanBookingHasPositiveDuration(b: Booking, today: Day)
    requires Clean(Some(b.start), Some(b.end), today) == []
    ensures DurationDays(b) > 0
  {
  }

  /**
   The overlap filter agrees with its meaning: two stays of at least one
   night overlap exactly when some night belongs to both.
   */
  lemma OverlapsIffSharedNight(b: Booking, start: Day, end: Day)
    requires b.start < b.end && start < end
    ensures Overlaps(b, start, end) <==> exists d :: d in Nights(b.start, b.end) && d in Nights(start, end)
  {
    if Overlaps(b, start, end) {
      var d := if b.start < start then start else b.start;
      NightsMembers(b.start, b.end, d);
      NightsMembers(start, end, d);
      assert d in Nights(b.start, b.end) && d in Nights(start, end);
    } else if exists d :: d in Nights(b.start, b.end) && d in Nights(start, end) {
      var d :| d in Nights(b.start, b.end) && d in Nights(start, end);
      NightsMembers(b.start, b.end, d);
      NightsMembers(start, end, d);
    }
  }

  /** Back-to-back stays are allowed: touching at a check-out day is not an overlap. */
  lemma BackToBackIsNoOverlap(b: Booking, start: Day, end: Day)
    requires start == b.end || end == b.start
    ensures !Overlaps(b, start, end)
  {
  }

  /**
   Re-checking a persisted, unchanged booking finds it available: its own row
   is excluded and no other booking of its room overlaps it.
   */
  lemma PersistedBookingRechecksFree(st: Store, id: Id)
    requires Valid(st) && id in st.bookings
    ensures CheckAvailability(st.bookings, st.bookings[id], Some(id))
  {
  }

  /** Without the self-exclusion a persisted booking would collide with itself. */
  lemma SelfExclusionIsNeeded(bookings: map<Id, Booking>, id: Id)
    requires ProperRanges(bookings) && id in bookings
    ensures !CheckAvailability(bookings, bookings[id], None)
  {
  }

  /** `save` validates first: every booking it persists has a proper range and an existing room. */
  lemma SavePersistsOnlyValidated(st: Store, room: Id, start: Day, end: Day, today: Day)
    requires Save(st, room, start, end, today).Success?
    ensures var (id, st') := Save(st, room, start, end, today).value;
      id in st'.bookings && st'.bookings[id].start < st'.bookings[id].end
      && st'.bookings[id].room in st'.rooms && today <= st'.bookings[id].start
  {
  }

  /**
   The room's bookings in the model's default ordering `date_start`: every
   booking of the room exactly once, earliest check-in first.
   */
  function ByStart(bookings: map<Id, Booking>, room: Id): (ids: seq<Id>)
    ensures |ids| == |BookingsOf(bookings, room)|
    ensures forall id :: id in ids <==> id in bookings && bookings[id].room == room
    ensures Sorting.Distinct(ids)
    ensures forall i :: 0 <= i < |ids| ==> ids[i] in bookings && bookings[ids[i]].room == room
    ensures forall i, j :: 0 <= i < j < |ids| ==> bookings[ids[i]].start <= bookings[ids[j]].start
  {
    var key := (id: Id) => if id in bookings then bookings[id].start else 0;
    var own := BookingsOf(bookings, room);
    var ids := Sorting.OrderBy(own, key);
    assert forall i :: 0 <= i < |ids| ==> ids[i] in own by {
      forall i | 0 <= i < |ids| ensures ids[i] in own {
        assert ids[i] in ids;
      }
    }
    assert forall i, j :: 0 <= i < j < |ids| ==> key(ids[i]) <= key(ids[j]);
    ids
  }

  /**
   In a consistent ledger the ordering is strict: two stays of one room never
   share a check-in day, because both last at least one night and so would overlap.
   */
  lemma ByStartIsStrict(bookings: map<Id, Booking>, room: Id)
    requires ProperRanges(bookings) && NoDoubleBooking(bookings)
    ensures var ids := ByStart(bookings, room);
      forall i, j :: 0 <= i < j < |ids| ==> bookings[ids[i]].start < bookings[ids[j]].start
  {
  }
}
