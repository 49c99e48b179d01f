/**
 The room entity's own queries: `get_bookings_count` and `is_available`,
 and the shape of its fixed-scale price column.
 */
module RoomModel {
  import opened Common
  import opened Ledger
  import BookingModel

  /** `Room.get_bookings_count`: how many bookings reference the room. */
  function BookingsCount(bookings: map<Id, Booking>, room: Id): (n: nat)
    ensures n <= |bookings|
    ensures n == 0 <==> forall id :: id in bookings ==> bookings[id].room != room
  {
    OwnBookingsBounded(bookings, room);
    |BookingsOf(bookings, room)|
  }

  lemma OwnBookingsBounded(bookings: map<Id, Booking>, room: Id)
    ensures |BookingsOf(bookings, room)| <= |bookings|
    ensures BookingsOf(bookings, room) == {} <==> forall id :: id in bookings ==> bookings[id].room != room
  {
    var own := BookingsOf(bookings, room);
    SubsetNoLarger(own, bookings.Keys);
    if exists id :: id in bookings && bookings[id].room == room {
      var id :| id in bookings && bookings[id].room == room;
      assert id in own;
    }
  }

  /** A subset of a finite set has no more elements than the set. */
  lemma {:induction false} SubsetNoLarger(a: set<Id>, b: set<Id>)
    requires a <= b
    ensures |a| <= |b|
    decreases |b|
  {
    if exists x :: x in a {
      var x :| x in a;
      SubsetNoLarger(a - {x}, b - {x});
    }
  }

  /**
   `Room.is_available`: true when no booking of this room overlaps the stay
   [start, end). There is no self-exclusion here.
   */
  function IsAvailable(bookings: map<Id, Booking>, room: Id, start: Day, end: Day): (free: bool)
    ensures free <==> forall id :: id in bookings && bookings[id].room == room
                                 ==> !Overlaps(bookings[id], start, end)
  {
    !exists id :: id in bookings && id in Conflicts(bookings, room, start, end)
  }

  /** The bookings of one room, as a sub-map. */
  function RoomBookings(bookings: map<Id, Booking>, room: Id): map<Id, Booking> {
    map id | id in bookings && bookings[id].room == room :: bookings[id]
  }

  /**
   For a booking that has no primary key yet, `check_availability` and
   `is_available` give the same answer.
   */
  lemma CheckAvailabilityAgreesWithIsAvailable(bookings: map<Id, Booking>, b: Booking, pk: Option<Id>)
    requires pk.None? || pk == Some(0)
    ensures BookingModel.CheckAvailability(bookings, b, pk) == IsAvailable(bookings, b.room, b.start, b.end)
  {
  }

  /** Only the room's own bookings matter: bookings of other rooms never change the answer. */
  lemma IsAvailableOnlySeesOwnRoom(m1: map<Id, Booking>, m2: map<Id, Booking>, room: Id, start: Day, end: Day)
    requires RoomBookings(m1, room) == RoomBookings(m2, room)
    ensures IsAvailable(m1, room, start, end) == IsAvailable(m2, room, start, end)
  {
    forall id | id in m1 && m1[id].room == room
      ensures id in m2 && m2[id] == m1[id]
    {
      assert id in RoomBookings(m1, room);
    }
    forall id | id in m2 && m2[id].room == room
      ensures id in m1 && m1[id] == m2[id]
    {
      assert id in RoomBookings(m2, room);
    }
  }

  /** Adding a booking to one room leaves every other room's count as it was and raises its own by one. */
  lemma {:induction false} AddingBookingCountsOnce(st: Store, room: Id, start: Day, end: Day, other: Id)
    requires KeysBelowCounters(st)
    ensures var st' := AddBooking(st, room, start, end);
      BookingsCount(st'.bookings, other)
        == BookingsCount(st.bookings, other) + (if other == room then 1 else 0)
  {
    var st' := AddBooking(st, room, start, end);
    var id := st.nextBookingId;
    assert id !in st.bookings;
    if other == room {
      assert BookingsOf(st'.bookings, other) == BookingsOf(st.bookings, other) + {id};
      assert id !in BookingsOf(st.bookings, other);
    } else {
      assert BookingsOf(st'.bookings, other) == BookingsOf(st.bookings, other);
    }
  }

  lemma {:induction false} DigitCountBound(n: nat, k: nat)
    ensures DigitCount(n) <= k <==> n < Pow10(k)
    decreases k
  {
    if k > 0 && n > 0 {
      DigitCountBound(n / 10, k - 1);
      assert n / 10 < Pow10(k - 1) <==> n < 10 * Pow10(k - 1);
    }
  }

  /**
   The price column: an amount in cents fits exactly when it is written with
   at most ten digits; the default price fits.
   */
  lemma PriceColumnHoldsTenDigits(c: Cents)
    ensures FitsPriceColumn(c) <==> DigitCount(Abs(c)) <= PriceMaxDigits
    ensures FitsPriceColumn(DefaultPrice)
  {
    DigitCountBound(Abs(c), PriceMaxDigits);
  }
}
