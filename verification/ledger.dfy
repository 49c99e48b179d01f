/**
 The two tables of the hotel and the invariants the ledger keeps:
 `rooms` (description, nightly price, creation stamp) and `bookings`
 (room foreign key with cascading delete, check-in and check-out dates,
 creation stamp). The store assigns primary keys from per-table counters
 starting at 1 and stamps each inserted row with a logical clock, which
 stands in for `created_at`.
 */
module Ledger {
  import opened Common

  datatype Room = Room(description: string, price: Cents, createdAt: nat)

  /** A stay from check-in day `start` up to, but excluding, check-out day `end`. */
  datatype Booking = Booking(room: Id, start: Day, end: Day, createdAt: nat)

  datatype Store = Store(
    rooms: map<Id, Room>,
    bookings: map<Id, Booking>,
    nextRoomId: Id,
    nextBookingId: Id,
    clock: nat)

  /** The response of a request together with the store it leaves behind. */
  datatype Step<+T> = Step(reply: Reply<T>, store: Store)

  const Empty: Store := Store(map[], map[], 1, 1, 0)

  /** Decimal places of the price column. */
  const PriceDecimalPlaces: nat := 2

  /** Total decimal digits the price column can hold. */
  const PriceMaxDigits: nat := 10

  /** Price a room gets when none is given. */
  const DefaultPrice: Cents := 0

  function Pow10(n: nat): (r: nat)
    ensures r >= 1
  {
    if n == 0 then 1 else 10 * Pow10(n - 1)
  }

  /**
   An amount in cents fits the price column when its magnitude has at most
   `PriceMaxDigits` digits (two of which are the fractional ones).
   */
  predicate FitsPriceColumn(c: Cents) {
    -(Pow10(PriceMaxDigits) as int) < c < Pow10(PriceMaxDigits)
  }

  /**
   The amount the price column holds for `amount`: quantized to
   `PriceDecimalPlaces` fractional digits, rounding to the nearest cent and
   a tie to the even cent, as decimal quantization does by default.
   */
  function ToCents(amount: real): (c: Cents)
    ensures var scaled := amount * (Pow10(PriceDecimalPlaces) as real);
      && -0.5 <= (c as real) - scaled <= 0.5
      && ((c as real) - scaled == 0.5 || scaled - (c as real) == 0.5 ==> c % 2 == 0)
    ensures 0.0 <= amount ==> 0 <= c
  {
    var scaled := amount * (Pow10(PriceDecimalPlaces) as real);
    var below := scaled.Floor;
    var frac := scaled - below as real;
    if frac < 0.5 then below
    else if frac > 0.5 then below + 1
    else if below % 2 == 0 then below
    else below + 1
  }

  /** Number of decimal digits needed to write `n` (zero needs none). */
  function DigitCount(n: nat): nat {
    if n == 0 then 0 else 1 + DigitCount(n / 10)
  }

  function Abs(c: int): nat {
    if c < 0 then -c else c
  }

  /**
   The half-open overlap filter `date_start < end and date_end > start`:
   a booking whose stay ends on the day another starts does not overlap it.
   */
  predicate Overlaps(b: Booking, start: Day, end: Day) {
    b.start < end && b.end > start
  }

  /** The related set `room.bookings`. */
  function BookingsOf(bookings: map<Id, Booking>, room: Id): set<Id> {
    set id | id in bookings && bookings[id].room == room
  }

  /** The bookings of `room` that the overlap filter selects for the stay [start, end). */
  function Conflicts(bookings: map<Id, Booking>, room: Id, start: Day, end: Day): set<Id> {
    set id | id in bookings && bookings[id].room == room && Overlaps(bookings[id], start, end)
  }

  /** Every primary key in use lies below its table's counter, so fresh keys never collide. */
  ghost predicate KeysBelowCounters(st: Store) {
    && 1 <= st.nextRoomId
    && 1 <= st.nextBookingId
    && (forall id :: id in st.rooms ==> 1 <= id < st.nextRoomId)
    && (forall id :: id in st.bookings ==> 1 <= id < st.nextBookingId)
  }

  /** No booking refers to a room that is not in the store. */
  ghost predicate NoOrphans(st: Store) {
    forall id :: id in st.bookings ==> st.bookings[id].room in st.rooms
  }

  /** Every persisted stay is at least one night long. */
  ghost predicate ProperRanges(bookings: map<Id, Booking>) {
    forall id :: id in bookings ==> bookings[id].start < bookings[id].end
  }

  /** No two distinct bookings of the same room overlap. */
  ghost predicate NoDoubleBooking(bookings: map<Id, Booking>) {
    forall a, b ::
      a in bookings && b in bookings && a != b && bookings[a].room == bookings[b].room
      ==> !Overlaps(bookings[a], bookings[b].start, bookings[b].end)
  }

  /**
   Every stored price is non-negative and fits the price column. It can be
   zero: a positive amount below half a cent passes the view's check and
   rounds to 0.00 in the column.
   */
  ghost predicate PricesValid(st: Store) {
    forall id :: id in st.rooms ==> 0 <= st.rooms[id].price && FitsPriceColumn(st.rooms[id].price)
  }

  /** Every row was stamped before the current clock reading. */
  ghost predicate StampsInPast(st: Store) {
    && (forall id :: id in st.rooms ==> st.rooms[id].createdAt < st.clock)
    && (forall id :: id in st.bookings ==> st.bookings[id].createdAt < st.clock)
  }

  ghost predicate Valid(st: Store) {
    && KeysBelowCounters(st)
    && NoOrphans(st)
    && ProperRanges(st.bookings)
    && NoDoubleBooking(st.bookings)
    && PricesValid(st)
    && StampsInPast(st)
  }

  /** Inserts a booking under the next booking key, stamped with the clock. */
  function AddBooking(st: Store, room: Id, start: Day, end: Day): (st': Store)
    ensures st'.bookings.Keys == st.bookings.Keys + {st.nextBookingId}
    ensures st'.bookings[st.nextBookingId] == Booking(room, start, end, st.clock)
    ensures st'.rooms == st.rooms && st'.nextRoomId == st.nextRoomId
  {
    st.(bookings := st.bookings[st.nextBookingId := Booking(room, start, end, st.clock)],
        nextBookingId := st.nextBookingId + 1,
        clock := st.clock + 1)
  }

  /** Inserts a room under the next room key, stamped with the clock. */
  function AddRoom(st: Store, description: string, price: Cents): (st': Store)
    ensures st'.rooms.Keys == st.rooms.Keys + {st.nextRoomId}
    ensures st'.rooms[st.nextRoomId] == Room(description, price, st.clock)
    ensures st'.bookings == st.bookings && st'.nextBookingId == st.nextBookingId
  {
    st.(rooms := st.rooms[st.nextRoomId := Room(description, price, st.clock)],
        nextRoomId := st.nextRoomId + 1,
        clock := st.clock + 1)
  }

  /**
   The store after a booking was added: exactly one new key, which was not in
   use, holding the given room and dates; every other row unchanged.
   */
  ghost predicate AddsOneBooking(st: Store, st': Store, id: Id, room: Id, start: Day, end: Day) {
    && id !in st.bookings
    && st'.bookings.Keys == st.bookings.Keys + {id}
    && st'.bookings[id].room == room
    && st'.bookings[id].start == start
    && st'.bookings[id].end == end
    && (forall k :: k in st.bookings ==> st'.bookings[k] == st.bookings[k])
    && st'.rooms == st.rooms
  }

  /** The store after a room was added: exactly one new room key, nothing else changed. */
  ghost predicate AddsOneRoom(st: Store, st': Store, id: Id, description: string, price: Cents) {
    && id !in st.rooms
    && st'.rooms.Keys == st.rooms.Keys + {id}
    && st'.rooms[id].description == description
    && st'.rooms[id].price == price
    && (forall k :: k in st.rooms ==> st'.rooms[k] == st.rooms[k])
    && st'.bookings == st.bookings
  }
}
